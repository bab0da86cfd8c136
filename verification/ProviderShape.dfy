/** Translation of a stored history to the OpenAI message shape that the LiteLLM
    client sends.  The translation may split and drop blocks, but what the provider
    checks (which calls, which results, in which order) is exactly what was stored. */
module ProviderShape {
  import opened Sequences
  import opened History
  import opened Options

  datatype WireCall = WireCall(id: string, name: string, arguments: string)

  /** A part of a user turn: images become data URLs, everything else passes through. */
  datatype WirePart = Part(block: Block) | ImageUrl(url: string)

  datatype WireMessage =
    | SystemTurn(text: string)
    | UserText(text: string)
    | UserParts(parts: seq<WirePart>)
    | AssistantTurn(said: Option<string>, calls: seq<WireCall>)
    | ToolTurn(callId: string, output: string)

  function JoinText(blocks: seq<Block>): string {
    if blocks == [] then ""
    else
      var last := blocks[|blocks| - 1];
      JoinText(blocks[..|blocks| - 1]) + (if last.Text? then last.text else "")
  }

  function WireCalls(blocks: seq<Block>): seq<WireCall> {
    if blocks == [] then []
    else
      var last := blocks[|blocks| - 1];
      WireCalls(blocks[..|blocks| - 1]) + (if last.ToolUse? then [WireCall(last.id, last.name, last.input)] else [])
  }

  function ToolTurns(blocks: seq<Block>): seq<WireMessage> {
    if blocks == [] then []
    else
      var last := blocks[|blocks| - 1];
      ToolTurns(blocks[..|blocks| - 1]) + (if last.ToolResult? then [ToolTurn(last.toolUseId, last.output)] else [])
  }

  function Extras(blocks: seq<Block>): seq<Block> {
    if blocks == [] then []
    else
      var last := blocks[|blocks| - 1];
      Extras(blocks[..|blocks| - 1]) + (if last.ToolResult? then [] else [last])
  }

  function TranslatePart(b: Block): WirePart {
    if b.Image? then ImageUrl("data:" + b.mediaType + ";base64," + b.data) else Part(b)
  }

  function TranslateAssistant(content: Content): WireMessage {
    match content
    case PlainText(t) => AssistantTurn(Some(t), [])
    case Blocks(bs) =>
      AssistantTurn(if JoinText(bs) == "" then None else Some(JoinText(bs)), WireCalls(bs))
  }

  function TranslateMessage(m: Message): seq<WireMessage> {
    if m.role.Assistant? then [TranslateAssistant(m.content)]
    else match m.content
      case PlainText(t) => [UserText(t)]
      case Blocks(bs) =>
        if ToolTurns(bs) != [] then
          ToolTurns(bs) + (if Extras(bs) != [] then [UserText(JoinText(Extras(bs)))] else [])
        else [UserParts(seq(|bs|, i requires 0 <= i < |bs| => TranslatePart(bs[i])))]
  }

  function TranslateAll(h: seq<Message>): seq<WireMessage> {
    if h == [] then [] else TranslateMessage(h[0]) + TranslateAll(h[1..])
  }

  function Request(h: seq<Message>, system: string): seq<WireMessage> {
    (if system != "" then [SystemTurn(system)] else []) + TranslateAll(h)
  }

  /** The request as the client builds it, one stored message after the other. */
  method TranslateMessages(h: seq<Message>, system: string) returns (out: seq<WireMessage>)
    ensures Renders(h, system, out)
    ensures (forall m :: m in h ==> AgentShaped(m)) ==>
              WireTokens(out) == Tokens(h) && (WirePaired(out) <==> WellFormed(h))
  {
    hide Renders, CutsRender, Rendered, AgentShaped, WireTokens, Tokens, TranslateMessage, WirePaired, WellFormed;
    out := if system != "" then [SystemTurn(system)] else [];
    ghost var prefix := out;
    ghost var cuts: seq<nat> := [|out|];
    RenderNothing(out);
    assert h[0..] == h && h[..0] == [];
    for i := 0 to |h|
      invariant prefix + TranslateAll(h) == out + TranslateAll(h[i..])
      invariant CutsRender(h[..i], cuts, out) && cuts != [] && cuts[0] == |prefix|
    {
      ghost var before := out;
      TranslateStep(h, i, out);
      out := out + TranslateMessage(h[i]);
      TranslationRenders(h[i]);
      RenderMore(h, i, cuts, before, TranslateMessage(h[i]));
      cuts := cuts + [|out|];
    }
    assert h[..|h|] == h && h[|h|..] == [] && out == Request(h, system);
    RendersDone(h, system, cuts, out);
    if forall m :: m in h ==> AgentShaped(m) {
      TranslationKeepsTokens(h, system);
      TranslationKeepsPairing(h, system);
    }
  }

  lemma TranslateStep(h: seq<Message>, i: nat, out: seq<WireMessage>)
    requires i < |h|
    ensures out + TranslateAll(h[i..]) == (out + TranslateMessage(h[i])) + TranslateAll(h[i + 1..])
  {
    hide TranslateMessage;
    assert h[i..][1..] == h[i + 1..];
  }

  /* ---- what a translated message holds, block by block ---- */

  datatype Kind = Call | Answer

  predicate Of(kind: Kind, b: Block) {
    match kind
    case Call => b.ToolUse?
    case Answer => b.ToolResult?
  }

  /** The positions of the blocks of one kind. */
  function Positions(blocks: seq<Block>, kind: Kind): seq<nat> {
    if blocks == [] then []
    else
      var n := |blocks| - 1;
      Positions(blocks[..n], kind) + (if Of(kind, blocks[n]) then [n] else [])
  }

  /** They are ascending. */
  lemma {:induction false} PositionsAscend(blocks: seq<Block>, kind: Kind)
    ensures forall k :: 0 <= k < |Positions(blocks, kind)| ==> Positions(blocks, kind)[k] < |blocks|
    ensures forall j, k :: 0 <= j < k < |Positions(blocks, kind)| ==>
              Positions(blocks, kind)[j] < Positions(blocks, kind)[k]
  {
    if blocks != [] { PositionsAscend(blocks[..|blocks| - 1], kind); }
  }

  /** They are exactly those of that kind. */
  lemma {:induction false} PositionsAre(blocks: seq<Block>, kind: Kind, i: nat)
    requires i < |blocks|
    ensures i in Positions(blocks, kind) <==> Of(kind, blocks[i])
  {
    hide Of;
    var front := blocks[..|blocks| - 1];
    PositionsAscend(front, kind);
    if i < |front| { PositionsAre(front, kind, i); }
  }

  ghost predicate CallsRendered(blocks: seq<Block>, calls: seq<WireCall>) {
    var at := Positions(blocks, Call);
    |calls| == |at| &&
    forall k :: 0 <= k < |at| ==>
      at[k] < |blocks| && blocks[at[k]].ToolUse? &&
      calls[k].id == blocks[at[k]].id && calls[k].name == blocks[at[k]].name && calls[k].arguments == blocks[at[k]].input
  }

  ghost predicate AnswersRendered(blocks: seq<Block>, turns: seq<WireMessage>) {
    var at := Positions(blocks, Answer);
    |turns| == |at| &&
    forall k :: 0 <= k < |at| ==>
      at[k] < |blocks| && blocks[at[k]].ToolResult? && turns[k].ToolTurn? &&
      turns[k].callId == blocks[at[k]].toolUseId && turns[k].output == blocks[at[k]].output
  }

  /** `text` is made of the text blocks, in order. */
  predicate WordsRendered(blocks: seq<Block>, text: string) {
    text == Join(seq(|blocks|, i requires 0 <= i < |blocks| => if blocks[i].Text? then blocks[i].text else ""))
  }

  predicate PartsRendered(blocks: seq<Block>, parts: seq<WirePart>) {
    |parts| == |blocks| &&
    forall i :: 0 <= i < |blocks| ==>
      if blocks[i].Image?
      then parts[i].ImageUrl? && parts[i].url == "data:" + blocks[i].mediaType + ";base64," + blocks[i].data
      else parts[i].Part? && parts[i].block == blocks[i]
  }

  /** The wire messages that stand for one stored message. */
  ghost predicate Rendered(m: Message, ws: seq<WireMessage>) {
    match (m.role, m.content)
    case (Assistant, PlainText(t)) => |ws| == 1 && ws[0] == AssistantTurn(Some(t), [])
    case (User, PlainText(t)) => |ws| == 1 && ws[0] == UserText(t)
    case (Assistant, Blocks(bs)) =>
      |ws| == 1 && ws[0].AssistantTurn? && CallsRendered(bs, ws[0].calls) &&
      WordsRendered(bs, if ws[0].said.Some? then ws[0].said.value else "") && ws[0].said != Some("")
    case (User, Blocks(bs)) =>
      var n := |Positions(bs, Answer)|;
      if n == 0 then |ws| == 1 && ws[0].UserParts? && PartsRendered(bs, ws[0].parts)
      else
        |ws| == n + (if n < |bs| then 1 else 0) && AnswersRendered(bs, ws[..n]) &&
        (n < |bs| ==> ws[n].UserText? && WordsRendered(bs, ws[n].text))
  }

  /** `out` from `cuts[i]` to `cuts[i + 1]` stands for the i-th message. */
  ghost predicate PieceRenders(h: seq<Message>, cuts: seq<nat>, out: seq<WireMessage>, i: nat)
    requires i < |h| && |cuts| == |h| + 1
  {
    cuts[i] <= cuts[i + 1] <= |out| && Rendered(h[i], out[cuts[i]..cuts[i + 1]])
  }

  ghost predicate CutsRender(h: seq<Message>, cuts: seq<nat>, out: seq<WireMessage>) {
    |cuts| == |h| + 1 && cuts[|h|] == |out| && forall i: nat :: i < |h| ==> PieceRenders(h, cuts, out, i)
  }

  /** `out` is the system prompt, if there is one, and then every message in order. */
  ghost predicate Renders(h: seq<Message>, system: string, out: seq<WireMessage>) {
    (system != "" ==> out != [] && out[0] == SystemTurn(system)) &&
    exists cuts: seq<nat> :: CutsRender(h, cuts, out) && cuts[0] == if system != "" then 1 else 0
  }

  lemma RenderNothing(out: seq<WireMessage>)
    ensures CutsRender([], [|out|], out)
  {}

  lemma RendersDone(h: seq<Message>, system: string, cuts: seq<nat>, out: seq<WireMessage>)
    requires CutsRender(h, cuts, out) && cuts[0] == (if system != "" then 1 else 0) && out == Request(h, system)
    ensures Renders(h, system, out)
  {
    hide CutsRender;
  }

  lemma RenderMore(h: seq<Message>, i: nat, cuts: seq<nat>, out: seq<WireMessage>, ws: seq<WireMessage>)
    requires i < |h| && CutsRender(h[..i], cuts, out) && Rendered(h[i], ws)
    ensures CutsRender(h[..i + 1], cuts + [|out + ws|], out + ws) && cuts != []
  {
    hide Rendered;
    var next, more, all := h[..i + 1], cuts + [|out + ws|], out + ws;
    forall k: nat | k < |next| ensures PieceRenders(next, more, all, k) {
      if k < i {
        assert PieceRenders(h[..i], cuts, out, k);
        assert all[cuts[k]..cuts[k + 1]] == out[cuts[k]..cuts[k + 1]];
      } else {
        assert all[|out|..|all|] == ws;
      }
    }
  }

  lemma {:induction false} WireCallsRender(blocks: seq<Block>)
    ensures CallsRendered(blocks, WireCalls(blocks))
  {
    if blocks != [] {
      var front := blocks[..|blocks| - 1];
      WireCallsRender(front);
      assert forall i :: 0 <= i < |front| ==> front[i] == blocks[i];
    }
  }

  lemma {:induction false} ToolTurnsRender(blocks: seq<Block>)
    ensures AnswersRendered(blocks, ToolTurns(blocks))
  {
    if blocks != [] {
      var front := blocks[..|blocks| - 1];
      ToolTurnsRender(front);
      assert forall i :: 0 <= i < |front| ==> front[i] == blocks[i];
    }
  }

  lemma {:induction false} ExtrasAreTheRest(blocks: seq<Block>)
    ensures |Extras(blocks)| == |blocks| - |ToolTurns(blocks)|
  {
    if blocks != [] { ExtrasAreTheRest(blocks[..|blocks| - 1]); }
  }

  lemma {:induction false} ExtrasKeepText(blocks: seq<Block>)
    ensures JoinText(Extras(blocks)) == JoinText(blocks)
  {
    if blocks != [] {
      var front, last := blocks[..|blocks| - 1], blocks[|blocks| - 1];
      ExtrasKeepText(front);
      var extras := Extras(front);
      if last.ToolResult? {
        assert extras + [] == extras && JoinText(front) + "" == JoinText(front);
      } else {
        assert (extras + [last])[..|extras|] == extras;
      }
    }
  }

  lemma {:induction false} JoinTextRenders(blocks: seq<Block>)
    ensures WordsRendered(blocks, JoinText(blocks))
  {
    if blocks != [] {
      var front, last := blocks[..|blocks| - 1], blocks[|blocks| - 1];
      JoinTextRenders(front);
      var word := if last.Text? then last.text else "";
      var words := seq(|front|, i requires 0 <= i < |front| => if front[i].Text? then front[i].text else "");
      JoinConcat(words, [word]);
      assert Join([word]) == word + Join([]);
      assert seq(|blocks|, i requires 0 <= i < |blocks| => if blocks[i].Text? then blocks[i].text else "") == words + [word];
    }
  }

  lemma UserTurnRenders(bs: seq<Block>)
    ensures Rendered(Message(User, Blocks(bs)), TranslateMessage(Message(User, Blocks(bs))))
  {
    hide AnswersRendered, WordsRendered, JoinText, Extras, ToolTurns;
    ToolTurnsRender(bs);
    AnswerCount(bs);
    ExtrasAreTheRest(bs);
    ExtrasKeepText(bs);
    JoinTextRenders(bs);
    var ws := TranslateMessage(Message(User, Blocks(bs)));
    if ToolTurns(bs) != [] { assert ws[..|ToolTurns(bs)|] == ToolTurns(bs); }
  }

  lemma AnswerCount(blocks: seq<Block>)
    ensures |ToolTurns(blocks)| == |Positions(blocks, Answer)|
  {
    ToolTurnsRender(blocks);
  }

  /** One message, whatever its role and content. */
  lemma TranslationRenders(m: Message)
    ensures Rendered(m, TranslateMessage(m))
  {
    hide CallsRendered, WordsRendered, WireCalls, JoinText;
    if m.content.Blocks? {
      var bs := m.content.blocks;
      if m.role.User? {
        UserTurnRenders(bs);
      } else {
        WireCallsRender(bs);
        JoinTextRenders(bs);
      }
    }
  }

  /* ---- what the provider reads off the wire ---- */

  function CallNames(calls: seq<WireCall>): seq<string> {
    seq(|calls|, i requires 0 <= i < |calls| => calls[i].id)
  }

  function WireToken(w: WireMessage): seq<Token> {
    match w
    case SystemTurn(_) => []
    case UserText(_) => [Turn]
    case UserParts(_) => [Turn]
    case AssistantTurn(_, calls) => if calls != [] then [Uses(CallNames(calls))] else [Turn]
    case ToolTurn(id, _) => [Result(id)]
  }

  function WireTokens(ws: seq<WireMessage>): seq<Token> {
    if ws == [] then [] else WireToken(ws[0]) + WireTokens(ws[1..])
  }

  predicate WirePaired(ws: seq<WireMessage>) {
    Paired(WireTokens(ws))
  }

  /** Calls live in assistant turns and results in user turns, as the agent stores them. */
  predicate AgentShaped(m: Message) {
    m.content.Blocks? ==>
      forall b :: b in m.content.blocks ==>
        (m.role.Assistant? ==> !b.ToolResult?) && (m.role.User? ==> !b.ToolUse?)
  }

  lemma WireTokensHead(a: seq<WireMessage>, b: seq<WireMessage>)
    requires a != []
    ensures WireTokens(a + b) == WireToken(a[0]) + WireTokens(a[1..] + b)
  {
    hide WireToken;
    assert (a + b)[1..] == a[1..] + b && (a + b)[0] == a[0];
  }

  lemma {:induction false} WireTokensConcat(a: seq<WireMessage>, b: seq<WireMessage>)
    ensures WireTokens(a + b) == WireTokens(a) + WireTokens(b)
  {
    hide WireToken;
    if a == [] {
      assert a + b == b;
    } else {
      WireTokensConcat(a[1..], b);
      WireTokensHead(a, b);
    }
  }

  lemma {:induction false} UseIdsAppend(blocks: seq<Block>, b: Block)
    ensures UseIds(blocks + [b]) == UseIds(blocks) + (if b.ToolUse? then [b.id] else [])
  {
    if blocks == [] {
      assert blocks + [b] == [b] && [b][1..] == [];
    } else {
      UseIdsAppend(blocks[1..], b);
      assert (blocks + [b])[0] == blocks[0] && (blocks + [b])[1..] == blocks[1..] + [b];
    }
  }

  lemma {:induction false} ResultIdsAppend(blocks: seq<Block>, b: Block)
    ensures ResultIds(blocks + [b]) == ResultIds(blocks) + (if b.ToolResult? then [b.toolUseId] else [])
  {
    if blocks == [] {
      assert blocks + [b] == [b] && [b][1..] == [];
    } else {
      ResultIdsAppend(blocks[1..], b);
      assert (blocks + [b])[0] == blocks[0] && (blocks + [b])[1..] == blocks[1..] + [b];
    }
  }

  lemma {:induction false} WireCallsCarryIds(blocks: seq<Block>)
    ensures CallNames(WireCalls(blocks)) == UseIds(blocks)
  {
    if blocks != [] {
      var front, last := blocks[..|blocks| - 1], blocks[|blocks| - 1];
      WireCallsCarryIds(front);
      UseIdsAppend(front, last);
      assert blocks == front + [last];
    }
  }

  lemma {:induction false} ToolTurnsCarryIds(blocks: seq<Block>)
    ensures WireTokens(ToolTurns(blocks)) == ResultTokens(ResultIds(blocks))
    ensures ToolTurns(blocks) == [] <==> ResultIds(blocks) == []
  {
    if blocks != [] {
      var front, last := blocks[..|blocks| - 1], blocks[|blocks| - 1];
      ToolTurnsCarryIds(front);
      ResultIdsAppend(front, last);
      assert blocks == front + [last];
      if last.ToolResult? {
        var turn := ToolTurn(last.toolUseId, last.output);
        WireTokensConcat(ToolTurns(front), [turn]);
        assert WireTokens([turn]) == [Result(last.toolUseId)] + WireTokens([]);
      } else {
        assert ToolTurns(front) + [] == ToolTurns(front) && ResultIds(front) + [] == ResultIds(front);
      }
    }
  }

  lemma ExtrasAreExtras(blocks: seq<Block>)
    ensures Extras(blocks) != [] <==> HasExtras(blocks)
  {
    ExtrasElements(blocks);
    if HasExtras(blocks) {
      var b :| b in blocks && !b.ToolResult?;
      assert b in Extras(blocks);
    }
    if Extras(blocks) != [] { assert Extras(blocks)[0] in Extras(blocks); }
  }

  lemma {:induction false} ExtrasElements(blocks: seq<Block>)
    ensures forall b :: b in Extras(blocks) <==> b in blocks && !b.ToolResult?
  {
    if blocks != [] {
      ExtrasElements(blocks[..|blocks| - 1]);
      assert blocks == blocks[..|blocks| - 1] + [blocks[|blocks| - 1]];
    }
  }

  lemma {:induction false} NoUses(blocks: seq<Block>)
    requires forall b :: b in blocks ==> !b.ToolUse?
    ensures UseIds(blocks) == []
  {
    if blocks != [] { NoUses(blocks[1..]); }
  }

  lemma {:induction false} NoResults(blocks: seq<Block>)
    requires forall b :: b in blocks ==> !b.ToolResult?
    ensures ResultIds(blocks) == []
  {
    if blocks != [] { NoResults(blocks[1..]); }
  }

  lemma MessageTranslationKeepsTokens(m: Message)
    requires AgentShaped(m)
    ensures WireTokens(TranslateMessage(m)) == MessageTokens(m)
  {
    hide JoinText, HasExtras, TranslatePart, UseIds, ResultIds, WireCalls, ToolTurns, Extras;
    match m.content
    case PlainText(t) =>
      assert WireTokens(TranslateMessage(m)) == WireToken(TranslateMessage(m)[0]) + [];
    case Blocks(bs) =>
      if m.role.Assistant? {
        NoResults(bs);
        WireCallsCarryIds(bs);
        assert WireCalls(bs) != [] <==> UseIds(bs) != [] by {
          assert |CallNames(WireCalls(bs))| == |WireCalls(bs)|;
        }
        var w := TranslateAssistant(m.content);
        assert WireTokens([w]) == WireToken(w) + WireTokens([]);
      } else {
        NoUses(bs);
        ToolTurnsCarryIds(bs);
        ExtrasAreExtras(bs);
        if ToolTurns(bs) != [] {
          var tail := if Extras(bs) != [] then [UserText(JoinText(Extras(bs)))] else [];
          WireTokensConcat(ToolTurns(bs), tail);
          assert tail != [] ==> WireTokens(tail) == [Turn] + WireTokens([]);
        } else {
          var w := TranslateMessage(m)[0];
          assert WireTokens([w]) == [Turn] + WireTokens([]);
        }
      }
  }

  lemma {:induction false} TranslateAllKeepsTokens(h: seq<Message>)
    requires forall m :: m in h ==> AgentShaped(m)
    ensures WireTokens(TranslateAll(h)) == Tokens(h)
  {
    if h != [] {
      MessageTranslationKeepsTokens(h[0]);
      TranslateAllKeepsTokens(h[1..]);
      WireTokensConcat(TranslateMessage(h[0]), TranslateAll(h[1..]));
    }
  }

  /** The provider sees the stored calls and results, in the stored order, and no others. */
  lemma TranslationKeepsTokens(h: seq<Message>, system: string)
    requires forall m :: m in h ==> AgentShaped(m)
    ensures WireTokens(Request(h, system)) == Tokens(h)
  {
    TranslateAllKeepsTokens(h);
    var head := if system != "" then [SystemTurn(system)] else [];
    WireTokensConcat(head, TranslateAll(h));
    assert WireTokens(head) == [];
  }

  /** The request is acceptable to the provider exactly when the stored history is well formed. */
  lemma TranslationKeepsPairing(h: seq<Message>, system: string)
    requires forall m :: m in h ==> AgentShaped(m)
    ensures WirePaired(Request(h, system)) <==> WellFormed(h)
  {
    TranslationKeepsTokens(h, system);
    ScanDecidesPairing(h);
  }
}
