/** Conversation histories and the pairing of tool calls with tool results that
    every provider demands.

    A history is a list of messages in the Anthropic shape.  What a provider
    checks about it is captured by a list of tokens: an ordinary turn, a turn
    carrying tool calls, or a tool result.  `Scan` reads the tokens once, keeping
    the ids whose results are still owed; `Paired` says the same thing by
    positions, and `ScanDecidesPairing` proves that the two agree. */
module History {
  import opened Sequences

  datatype Role = User | Assistant

  datatype Block =
    | Text(text: string)
    | Image(mediaType: string, data: string)
    | ToolUse(id: string, name: string, input: string)
    | ToolResult(toolUseId: string, output: string, isError: bool)

  datatype Content = PlainText(text: string) | Blocks(blocks: seq<Block>)

  datatype Message = Message(role: Role, content: Content)

  datatype Token = Turn | Uses(ids: seq<string>) | Result(id: string)

  /* ---- ids carried by content blocks ---- */

  function UseIds(blocks: seq<Block>): seq<string> {
    if blocks == [] then []
    else (if blocks[0].ToolUse? then [blocks[0].id] else []) + UseIds(blocks[1..])
  }

  function ResultIds(blocks: seq<Block>): seq<string> {
    if blocks == [] then []
    else (if blocks[0].ToolResult? then [blocks[0].toolUseId] else []) + ResultIds(blocks[1..])
  }

  predicate HasExtras(blocks: seq<Block>) {
    exists b :: b in blocks && !b.ToolResult?
  }

  function ResultTokens(ids: seq<string>): (ts: seq<Token>)
    ensures |ts| == |ids|
  {
    seq(|ids|, i requires 0 <= i < |ids| => Result(ids[i]))
  }

  function MessageTokens(m: Message): seq<Token> {
    match m.content
    case PlainText(_) => [Turn]
    case Blocks(bs) =>
      ResultTokens(ResultIds(bs)) +
      (if UseIds(bs) != [] then [Uses(UseIds(bs))]
       else if ResultIds(bs) == [] || HasExtras(bs) then [Turn]
       else [])
  }

  function Tokens(h: seq<Message>): seq<Token> {
    if h == [] then [] else MessageTokens(h[0]) + Tokens(h[1..])
  }

  lemma {:induction false} TokensConcat(a: seq<Message>, b: seq<Message>)
    ensures Tokens(a + b) == Tokens(a) + Tokens(b)
  {
    hide MessageTokens;
    if a == [] {
      assert a + b == b;
    } else {
      TokensConcat(a[1..], b);
      assert (a + b)[1..] == a[1..] + b && (a + b)[0] == a[0];
      var first := MessageTokens(a[0]);
      assert Tokens(a + b) == first + Tokens((a + b)[1..]);
      assert first + (Tokens(a[1..]) + Tokens(b)) == (first + Tokens(a[1..])) + Tokens(b);
    }
  }

  /* ---- reading the tokens once ---- */

  /** What is owed after a prefix: the results of `ids`, in that order. */
  datatype Debt = Broken | Owed(ids: seq<string>)

  const SETTLED := Owed([])

  function Step(d: Debt, t: Token): Debt {
    if d.Broken? then Broken
    else match t
      case Turn => if d.ids == [] then SETTLED else Broken
      case Uses(ids) => if d.ids == [] then Owed(ids) else Broken
      case Result(id) => if d.ids != [] && d.ids[0] == id then Owed(d.ids[1..]) else Broken
  }

  function Scan(d: Debt, ts: seq<Token>): Debt
    decreases |ts|
  {
    if ts == [] then d else Scan(Step(d, ts[0]), ts[1..])
  }

  function After(h: seq<Message>): Debt {
    Scan(SETTLED, Tokens(h))
  }

  /** The whole history may be sent to a provider. */
  predicate WellFormed(h: seq<Message>) {
    After(h) == SETTLED
  }

  lemma {:induction false} ScanConcat(d: Debt, a: seq<Token>, b: seq<Token>)
    ensures Scan(d, a + b) == Scan(Scan(d, a), b)
    decreases |a|
  {
    if a == [] {
      assert a + b == b;
    } else {
      ScanConcat(Step(d, a[0]), a[1..], b);
      assert (a + b)[1..] == a[1..] + b;
    }
  }

  lemma {:induction false} ScanBroken(ts: seq<Token>)
    ensures Scan(Broken, ts) == Broken
  {
    if ts != [] { ScanBroken(ts[1..]); }
  }

  lemma AfterConcat(a: seq<Message>, b: seq<Message>)
    ensures After(a + b) == Scan(After(a), Tokens(b))
  {
    TokensConcat(a, b);
    ScanConcat(SETTLED, Tokens(a), Tokens(b));
  }

  lemma AfterAppend(h: seq<Message>, m: Message)
    ensures After(h + [m]) == Scan(After(h), MessageTokens(m))
  {
    AfterConcat(h, [m]);
    assert Tokens([m]) == MessageTokens(m) + Tokens([]);
    assert Tokens([m]) == MessageTokens(m);
  }

  /* ---- the same by positions ---- */

  /** The k calls of the turn at `i` are answered by the k tokens after it, in order. */
  predicate AnsweredAt(ts: seq<Token>, i: nat)
    requires i < |ts| && ts[i].Uses?
  {
    i + |ts[i].ids| < |ts| &&
    forall j :: 0 <= j < |ts[i].ids| ==> ts[i + 1 + j] == Result(ts[i].ids[j])
  }

  /** The result at `r` is claimed by an earlier turn with calls. */
  predicate Claimed(ts: seq<Token>, r: nat)
    requires r < |ts|
  {
    exists i: nat :: i < r && ts[i].Uses? && r <= i + |ts[i].ids|
  }

  predicate Paired(ts: seq<Token>) {
    (forall i: nat :: i < |ts| && ts[i].Uses? ==> AnsweredAt(ts, i)) &&
    (forall r: nat :: r < |ts| && ts[r].Result? ==> Claimed(ts, r))
  }

  lemma PairedDropTurn(ts: seq<Token>)
    requires ts != [] && ts[0] == Turn
    ensures Paired(ts) <==> Paired(ts[1..])
  {
    var u := ts[1..];
    if Paired(ts) {
      forall i: nat | i < |u| && u[i].Uses? ensures AnsweredAt(u, i) {
        assert AnsweredAt(ts, i + 1);
        forall j | 0 <= j < |u[i].ids| ensures u[i + 1 + j] == Result(u[i].ids[j]) {
          assert ts[i + 1 + 1 + j] == Result(ts[i + 1].ids[j]);
        }
      }
      forall r: nat | r < |u| && u[r].Result? ensures Claimed(u, r) {
        assert Claimed(ts, r + 1);
        var i: nat :| i < r + 1 && ts[i].Uses? && r + 1 <= i + |ts[i].ids|;
        assert u[i - 1].Uses?;
      }
    }
    if Paired(u) {
      forall i: nat | i < |ts| && ts[i].Uses? ensures AnsweredAt(ts, i) {
        assert u[i - 1] == ts[i];
        assert AnsweredAt(u, i - 1);
        forall j | 0 <= j < |ts[i].ids| ensures ts[i + 1 + j] == Result(ts[i].ids[j]) {
          assert u[i - 1 + 1 + j] == Result(u[i - 1].ids[j]);
        }
      }
      forall r: nat | r < |ts| && ts[r].Result? ensures Claimed(ts, r) {
        assert u[r - 1] == ts[r];
        assert Claimed(u, r - 1);
        var i: nat :| i < r - 1 && u[i].Uses? && r - 1 <= i + |u[i].ids|;
        assert ts[i + 1].Uses?;
      }
    }
  }

  lemma GroupIsResults(ts: seq<Token>, r: nat)
    requires ts != [] && ts[0].Uses? && AnsweredAt(ts, 0)
    requires 0 < r <= |ts[0].ids|
    ensures ts[r] == Result(ts[0].ids[r - 1])
  {
    assert ts[0 + 1 + (r - 1)] == Result(ts[0].ids[r - 1]);
  }

  lemma PairedAfterGroup(ts: seq<Token>)
    requires ts != [] && ts[0].Uses? && Paired(ts)
    ensures AnsweredAt(ts, 0) && Paired(ts[1 + |ts[0].ids|..])
  {
    assert AnsweredAt(ts, 0);
    var k := 1 + |ts[0].ids|;
    var u := ts[k..];
    forall i: nat | i < |u| && u[i].Uses? ensures AnsweredAt(u, i) {
      assert AnsweredAt(ts, i + k);
      forall j | 0 <= j < |u[i].ids| ensures u[i + 1 + j] == Result(u[i].ids[j]) {
        assert ts[i + k + 1 + j] == Result(ts[i + k].ids[j]);
      }
    }
    forall r: nat | r < |u| && u[r].Result? ensures Claimed(u, r) {
      assert Claimed(ts, r + k);
      var i: nat :| i < r + k && ts[i].Uses? && r + k <= i + |ts[i].ids|;
      if 0 < i < k { GroupIsResults(ts, i); }
      assert u[i - k].Uses?;
    }
  }

  lemma PairedWithGroup(ts: seq<Token>)
    requires ts != [] && ts[0].Uses? && AnsweredAt(ts, 0)
    requires Paired(ts[1 + |ts[0].ids|..])
    ensures Paired(ts)
  {
    var k := 1 + |ts[0].ids|;
    var u := ts[k..];
    forall i: nat | i < |ts| && ts[i].Uses? ensures AnsweredAt(ts, i) {
      if i >= k {
        assert u[i - k] == ts[i];
        assert AnsweredAt(u, i - k);
        forall j | 0 <= j < |ts[i].ids| ensures ts[i + 1 + j] == Result(ts[i].ids[j]) {
          assert u[i - k + 1 + j] == Result(u[i - k].ids[j]);
        }
      } else if i > 0 {
        GroupIsResults(ts, i);
      }
    }
    forall r: nat | r < |ts| && ts[r].Result? ensures Claimed(ts, r) {
      if r >= k {
        assert u[r - k] == ts[r];
        assert Claimed(u, r - k);
        var i: nat :| i < r - k && u[i].Uses? && r - k <= i + |u[i].ids|;
        assert ts[i + k].Uses?;
      } else {
        assert ts[0].Uses? && r <= 0 + |ts[0].ids|;
      }
    }
  }

  predicate StartsWithResults(ts: seq<Token>, ids: seq<string>) {
    |ids| <= |ts| && forall j :: 0 <= j < |ids| ==> ts[j] == Result(ids[j])
  }

  /** Reading once and looking at positions decide the same thing, from any debt. */
  lemma {:induction false} ScanDecidesPairingFrom(ids: seq<string>, ts: seq<Token>)
    ensures Scan(Owed(ids), ts) == SETTLED <==>
            StartsWithResults(ts, ids) && Paired(ts[|ids|..])
    decreases |ts|
  {
    if ts == [] {
      if ids != [] { assert !StartsWithResults(ts, ids); }
    } else if ids != [] {
      if ts[0] == Result(ids[0]) {
        ScanDecidesPairingFrom(ids[1..], ts[1..]);
        if |ids| <= |ts| { assert ts[1..][|ids[1..]|..] == ts[|ids|..]; }
        if StartsWithResults(ts[1..], ids[1..]) {
          forall j | 0 <= j < |ids| ensures ts[j] == Result(ids[j]) {
            if j > 0 { assert ts[1..][j - 1] == Result(ids[1..][j - 1]); }
          }
        }
        if StartsWithResults(ts, ids) {
          forall j | 0 <= j < |ids| - 1 ensures ts[1..][j] == Result(ids[1..][j]) {
            assert ts[j + 1] == Result(ids[j + 1]);
          }
        }
      } else {
        ScanBroken(ts[1..]);
      }
    } else {
      assert ts[0..] == ts;
      match ts[0]
      case Turn =>
        PairedDropTurn(ts);
        ScanDecidesPairingFrom([], ts[1..]);
        assert ts[1..][0..] == ts[1..];
      case Uses(calls) =>
        if Paired(ts) { PairedAfterGroup(ts); }
        ScanDecidesPairingFrom(calls, ts[1..]);
        if AnsweredAt(ts, 0) {
          forall j | 0 <= j < |calls| ensures ts[1..][j] == Result(calls[j]) {
            assert ts[0 + 1 + j] == Result(calls[j]);
          }
          assert ts[1..][|calls|..] == ts[1 + |calls|..];
        }
        if StartsWithResults(ts[1..], calls) {
          forall j | 0 <= j < |calls| ensures ts[0 + 1 + j] == Result(calls[j]) {
            assert ts[1..][j] == Result(calls[j]);
          }
          assert AnsweredAt(ts, 0);
          assert ts[1..][|calls|..] == ts[1 + |calls|..];
          if Paired(ts[1 + |calls|..]) { PairedWithGroup(ts); }
        }
      case Result(id) =>
        ScanBroken(ts[1..]);
        assert !Claimed(ts, 0);
    }
  }

  /** A history is well formed exactly when each turn with k calls is followed by its
      k results in order and every result belongs to such a turn. */
  lemma ScanDecidesPairing(h: seq<Message>)
    ensures WellFormed(h) <==> Paired(Tokens(h))
  {
    ScanDecidesPairingFrom([], Tokens(h));
    assert Tokens(h)[0..] == Tokens(h);
  }

  /* ---- distinct call ids ---- */

  /** All call ids of a token list, in order. */
  function CallIds(ts: seq<Token>): seq<string> {
    if ts == [] then []
    else (if ts[0].Uses? then ts[0].ids else []) + CallIds(ts[1..])
  }

  lemma {:induction false} CallIdsConcat(a: seq<Token>, b: seq<Token>)
    ensures CallIds(a + b) == CallIds(a) + CallIds(b)
  {
    if a == [] {
      assert a + b == b;
    } else {
      CallIdsConcat(a[1..], b);
      assert (a + b)[1..] == a[1..] + b;
    }
  }

  predicate DistinctCalls(h: seq<Message>) {
    Distinct(CallIds(Tokens(h)))
  }

  /** Whatever a prefix still owes was called by that prefix (or owed before it). */
  lemma {:induction false} OwedWasCalled(d: Debt, ts: seq<Token>, id: string)
    requires d.Owed? && Scan(d, ts).Owed? && id in Scan(d, ts).ids
    ensures id in d.ids || id in CallIds(ts)
    decreases |ts|
  {
    if ts != [] {
      var e := Step(d, ts[0]);
      if e.Broken? {
        ScanBroken(ts[1..]);
      } else {
        OwedWasCalled(e, ts[1..], id);
      }
    }
  }

  lemma DistinctSplit<T>(a: seq<T>, b: seq<T>, x: T)
    requires Distinct(a + b) && x in a
    ensures x !in b
  {
    var i :| 0 <= i < |a| && a[i] == x;
    forall j | 0 <= j < |b| ensures b[j] != x {
      assert (a + b)[i] != (a + b)[|a| + j];
    }
  }
}
