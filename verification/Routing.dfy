/** The bookkeeping of one entry to the agent loop: iteration count, mode, iteration
    cap and the FLASH to MAX escalation. */
module Routing {
  import opened Options

  datatype Mode = Flash | Max

  const ESCALATION_THRESHOLD := 3

  function ModeCap(m: Mode): int { if m.Flash? then 5 else 50 }

  /** Loop-local state together with the agent fields the loop may change. */
  datatype Loop = Loop(iteration: nat, mode: Mode, cap: int, pinned: Option<int>, escalated: bool,
                       retriesLeft: int, verifierLeft: int, escalations: nat)

  /** How a model turn that does not end the loop went. */
  datatype Turn = ToolRound(error: bool) | StructuredRetry | AnswerRejected

  function Begin(mode: Mode, pinned: Option<int>, retries: int, verifier: int): Loop {
    Loop(0, mode, if pinned.Some? then pinned.value else ModeCap(mode), pinned, false, retries, verifier, 0)
  }

  /** Only FLASH escalates; an unpinned cap is raised with the mode. */
  function Escalate(l: Loop): Loop {
    if l.mode.Max? then l
    else l.(mode := Max, cap := if l.pinned.None? then ModeCap(Max) else l.cap,
            escalated := true, escalations := l.escalations + 1)
  }

  function MaybeEscalate(l: Loop, error: bool): Loop {
    if l.escalated || l.mode.Max? then l
    else if (l.iteration == 0 && error) || l.iteration + 1 >= ESCALATION_THRESHOLD then Escalate(l)
    else l
  }

  predicate Allowed(l: Loop, t: Turn) {
    l.iteration < l.cap &&
    (t.StructuredRetry? ==> l.retriesLeft > 0) &&
    (t.AnswerRejected? ==> l.verifierLeft > 0)
  }

  function Advance(l: Loop, t: Turn): Loop {
    var m :=
      match t
      case ToolRound(error) => MaybeEscalate(l, error)
      case StructuredRetry => l.(retriesLeft := l.retriesLeft - 1)
      case AnswerRejected => MaybeEscalate(l.(verifierLeft := l.verifierLeft - 1), true);
    m.(iteration := l.iteration + 1)
  }

  predicate Runs(l: Loop, ts: seq<Turn>)
    decreases |ts|
  {
    ts == [] || (Allowed(l, ts[0]) && Runs(Advance(l, ts[0]), ts[1..]))
  }

  function After(l: Loop, ts: seq<Turn>): Loop
    decreases |ts|
  {
    if ts == [] then l else After(Advance(l, ts[0]), ts[1..])
  }

  lemma RunsNothing(l: Loop)
    ensures Runs(l, []) && After(l, []) == l
  {}

  lemma {:induction false} RunsAppend(l: Loop, ts: seq<Turn>, t: Turn)
    requires Runs(l, ts) && Allowed(After(l, ts), t)
    ensures Runs(l, ts + [t]) && After(l, ts + [t]) == Advance(After(l, ts), t)
    decreases |ts|
  {
    if ts == [] {
      assert ts + [t] == [t] && [t][1..] == [];
    } else {
      RunsAppend(Advance(l, ts[0]), ts[1..], t);
      assert (ts + [t])[1..] == ts[1..] + [t];
    }
  }

  /* ---- when a loop escalates ---- */

  /** A failure on the very first turn, or any round but a structured retry from the third on. */
  predicate Triggers(ts: seq<Turn>, from: nat, k: nat)
    requires k < |ts|
  {
    match ts[k]
    case StructuredRetry => false
    case ToolRound(error) => from + k >= 2 || (from + k == 0 && error)
    case AnswerRejected => from + k >= 2 || from + k == 0
  }

  lemma {:induction false} StaysMax(l: Loop, ts: seq<Turn>)
    requires l.mode.Max?
    ensures After(l, ts).mode.Max?
    decreases |ts|
  {
    if ts != [] { StaysMax(Advance(l, ts[0]), ts[1..]); }
  }

  lemma TriggersLater(ts: seq<Turn>, from: nat, k: nat)
    requires ts != [] && k < |ts[1..]|
    ensures Triggers(ts[1..], from + 1, k) == Triggers(ts, from, k + 1)
  {}

  lemma {:induction false} EscalatesFrom(l: Loop, ts: seq<Turn>)
    requires l.mode.Flash? && !l.escalated
    ensures After(l, ts).mode.Max? <==> exists k: nat :: k < |ts| && Triggers(ts, l.iteration, k)
    decreases |ts|
  {
    if ts != [] {
      var next := Advance(l, ts[0]);
      if Triggers(ts, l.iteration, 0) {
        StaysMax(next, ts[1..]);
      } else {
        EscalatesFrom(next, ts[1..]);
        forall k: nat | k < |ts[1..]| ensures Triggers(ts[1..], next.iteration, k) == Triggers(ts, l.iteration, k + 1) {
          TriggersLater(ts, l.iteration, k);
        }
        if exists k: nat :: k < |ts| && Triggers(ts, l.iteration, k) {
          var k: nat :| k < |ts| && Triggers(ts, l.iteration, k);
          assert Triggers(ts[1..], next.iteration, k - 1);
        }
      }
    }
  }

  /** A loop that starts in FLASH is in MAX exactly when its first turn failed or some round
      other than a structured retry was its third or later. */
  lemma EscalatesIff(pinned: Option<int>, retries: int, verifier: int, ts: seq<Turn>)
    ensures After(Begin(Flash, pinned, retries, verifier), ts).mode.Max? <==>
            exists k: nat :: k < |ts| && Triggers(ts, 0, k)
  {
    EscalatesFrom(Begin(Flash, pinned, retries, verifier), ts);
  }

  /* ---- how often an answer is sent back ---- */

  function Count(ts: seq<Turn>, t: Turn): nat {
    if ts == [] then 0 else (if ts[0] == t then 1 else 0) + Count(ts[1..], t)
  }

  /** Each kind of retry is given at most as often as it was allowed. */
  lemma {:induction false} RetriesAreBounded(l: Loop, ts: seq<Turn>)
    requires Runs(l, ts)
    ensures Count(ts, StructuredRetry) <= if l.retriesLeft > 0 then l.retriesLeft else 0
    ensures Count(ts, AnswerRejected) <= if l.verifierLeft > 0 then l.verifierLeft else 0
    decreases |ts|
  {
    if ts != [] { RetriesAreBounded(Advance(l, ts[0]), ts[1..]); }
  }

  /* ---- one conversation, many runs ---- */

  /** The mode of a new run and the flag that keeps MAX; `None` is a classifier error. */
  function Route(sticky: bool, classified: Option<Mode>): (Mode, bool) {
    match classified
    case None => (Max, sticky)
    case Some(Flash) => (if sticky then Max else Flash, sticky)
    case Some(Max) => (Max, true)
  }

  /** A run: how it was classified, and whether it escalates if it starts in FLASH. */
  datatype RunOf = RunOf(classified: Option<Mode>, escalates: bool)

  function StickyAfter(runs: seq<RunOf>): bool {
    if runs == [] then false
    else
      var last := runs[|runs| - 1];
      var (mode, sticky) := Route(StickyAfter(runs[..|runs| - 1]), last.classified);
      sticky || (mode.Flash? && last.escalates)
  }

  function StartMode(runs: seq<RunOf>, j: nat): Mode
    requires j < |runs|
  {
    Route(StickyAfter(runs[..j]), runs[j].classified).0
  }

  /** The classifier asked for MAX, or for FLASH and the run escalated. */
  predicate AsksForMax(run: RunOf) {
    run.classified == Some(Max) || (run.classified == Some(Flash) && run.escalates)
  }

  lemma {:induction false} StickyIffAsked(runs: seq<RunOf>)
    ensures StickyAfter(runs) <==> exists i :: 0 <= i < |runs| && AsksForMax(runs[i])
    decreases |runs|
  {
    if runs != [] {
      var before, last := runs[..|runs| - 1], runs[|runs| - 1];
      StickyIffAsked(before);
      assert forall i :: 0 <= i < |before| ==> before[i] == runs[i];
      if StickyAfter(before) {
        var i :| 0 <= i < |before| && AsksForMax(before[i]);
        assert AsksForMax(runs[i]);
      } else {
        assert forall i :: 0 <= i < |runs| - 1 ==> !AsksForMax(runs[i]);
        assert AsksForMax(last) == AsksForMax(runs[|runs| - 1]);
      }
    }
  }

  /** A run starts in FLASH exactly when it is classified FLASH and no earlier run asked for
      MAX.  A run that is in MAX only because its classifier failed does not count, so that an
      outage does not pin MAX. */
  lemma StartsInFlashIff(runs: seq<RunOf>, j: nat)
    requires j < |runs|
    ensures StartMode(runs, j).Flash? <==>
            runs[j].classified == Some(Flash) && forall i :: 0 <= i < j ==> !AsksForMax(runs[i])
  {
    StickyIffAsked(runs[..j]);
    assert forall i :: 0 <= i < j ==> runs[..j][i] == runs[i];
  }

  /** After a classifier outage the conversation may still run in FLASH. */
  lemma OutageDoesNotPin()
    ensures var runs := [RunOf(None, false), RunOf(Some(Flash), false)];
            StartMode(runs, 0).Max? && StartMode(runs, 1).Flash?
  {
    var runs := [RunOf(None, false), RunOf(Some(Flash), false)];
    StartsInFlashIff(runs, 0);
    StartsInFlashIff(runs, 1);
  }

  /** The flag that keeps a conversation at MAX records an escalation and nothing else, and
      a loop never leaves MAX. */
  predicate Sticks(before: Mode, wasSticky: bool, after: Mode, isSticky: bool) {
    (before.Max? ==> after.Max?) && (isSticky <==> wasSticky || (before.Flash? && after.Max?))
  }

  lemma SticksCompose(m0: Mode, s0: bool, m1: Mode, s1: bool, m2: Mode, s2: bool)
    requires Sticks(m0, s0, m1, s1) && Sticks(m1, s1, m2, s2)
    ensures Sticks(m0, s0, m2, s2)
  {}

  /** What a routed run leaves behind. */
  lemma RoutedRun(sticky: bool, classified: Option<Mode>, mode: Mode, nowSticky: bool)
    requires Sticks(Route(sticky, classified).0, Route(sticky, classified).1, mode, nowSticky)
    ensures mode.Flash? ==> !sticky && classified == Some(Flash)
    ensures nowSticky <==> sticky || (classified.Some? && mode.Max?)
  {}

  lemma SticksSame(m: Mode, s: bool)
    ensures Sticks(m, s, m, s)
  {}

  /** What every turn keeps, for a loop that started with `retries` correction rounds. */
  predicate Inv(l: Loop, retries: int) {
    (l.pinned.Some? ==> l.cap == l.pinned.value) &&
    (l.pinned.None? ==> l.cap == ModeCap(l.mode)) &&
    (l.escalated ==> l.mode.Max?) &&
    l.escalations <= (if l.mode.Max? then 1 else 0) &&
    l.retriesLeft <= retries && (l.retriesLeft < retries ==> l.retriesLeft >= 0) &&
    (l.mode.Flash? ==> l.iteration <= 2 + (retries - l.retriesLeft)) &&
    (l.pinned.None? ==> l.iteration <= 50) && (l.pinned.Some? && l.iteration > 0 ==> l.iteration <= l.pinned.value)
  }

  lemma AdvanceKeepsInv(l: Loop, t: Turn, retries: int)
    requires Inv(l, retries) && Allowed(l, t)
    ensures Inv(Advance(l, t), retries) && Advance(l, t).pinned == l.pinned
  {}

  lemma {:induction false} RunKeepsInv(l: Loop, ts: seq<Turn>, retries: int)
    requires Inv(l, retries) && Runs(l, ts)
    ensures Inv(After(l, ts), retries) && After(l, ts).pinned == l.pinned
    ensures After(l, ts).iteration == l.iteration + |ts|
    decreases |ts|
  {
    if ts != [] {
      AdvanceKeepsInv(l, ts[0], retries);
      RunKeepsInv(Advance(l, ts[0]), ts[1..], retries);
    }
  }

  /** Every entry to the loop is finite and escalates at most once: at most 50 turns
      with a routed cap, at most the pinned number otherwise. */
  lemma LoopIsBounded(mode: Mode, pinned: Option<int>, retries: int, verifier: int, ts: seq<Turn>)
    requires Runs(Begin(mode, pinned, retries, verifier), ts)
    ensures After(Begin(mode, pinned, retries, verifier), ts).escalations <= 1
    ensures pinned.None? ==> |ts| <= 50
    ensures pinned.Some? && ts != [] ==> |ts| <= pinned.value
  {
    RunKeepsInv(Begin(mode, pinned, retries, verifier), ts, retries);
  }

  /** The run used up its whole cap without ever leaving FLASH. */
  predicate ExhaustsInFlash(retries: int, verifier: int, ts: seq<Turn>) {
    var l := Begin(Flash, None, retries, verifier);
    Runs(l, ts) && After(l, ts).mode.Flash? && After(l, ts).iteration >= After(l, ts).cap
  }

  /** Two quiet tool rounds followed by three rejected structured answers. */
  function StuckRun(): seq<Turn> {
    [ToolRound(false), ToolRound(false), StructuredRetry, StructuredRetry, StructuredRetry]
  }

  lemma StuckInFlash(retries: int, verifier: int)
    requires retries >= 3
    ensures ExhaustsInFlash(retries, verifier, StuckRun())
  {
    var l := Begin(Flash, None, retries, verifier);
    var ts := StuckRun();
    assert ts[1..] == [ToolRound(false), StructuredRetry, StructuredRetry, StructuredRetry];
    assert ts[1..][1..] == [StructuredRetry, StructuredRetry, StructuredRetry];
    assert ts[1..][1..][1..] == [StructuredRetry, StructuredRetry];
    assert ts[1..][1..][1..][1..] == [StructuredRetry];
    assert ts[1..][1..][1..][1..][1..] == [];
    var a := Advance(l, ts[0]);
    var b := Advance(a, ts[1]);
    var c := Advance(b, ts[2]);
    var d := Advance(c, ts[3]);
    var e := Advance(d, ts[4]);
    assert After(d, [StructuredRetry]) == After(e, []);
    assert After(c, ts[1..][1..][1..]) == After(d, [StructuredRetry]);
    assert Runs(d, [StructuredRetry]);
    assert Runs(c, ts[1..][1..][1..]);
    assert Runs(b, ts[1..][1..]);
    assert Runs(a, ts[1..]);
    assert After(b, ts[1..][1..]) == After(c, ts[1..][1..][1..]);
    assert After(a, ts[1..]) == After(b, ts[1..][1..]);
    assert After(l, ts) == e;
  }

  /** A routed FLASH run can die of its small cap exactly when it is given three or
      more structured correction rounds; the default of two is the largest safe value. */
  lemma FlashExhaustionIff(retries: int, verifier: int)
    ensures (exists ts :: ExhaustsInFlash(retries, verifier, ts)) <==> retries >= 3
  {
    if retries >= 3 {
      StuckInFlash(retries, verifier);
    } else {
      var l := Begin(Flash, None, retries, verifier);
      forall ts ensures !ExhaustsInFlash(retries, verifier, ts) {
        if Runs(l, ts) { RunKeepsInv(l, ts, retries); }
      }
    }
  }
}
