/** An MCP client and server joined by two FIFO channels, with timeouts, late answers and
    unsolicited server messages.  Handshake states follow the Lifecycle section of MCP
    revision 2025-03-26. */
module McpSession {
  import opened Options

  /* ---- messages ---- */

  datatype Call =
    | Initialize(version: Option<string>)
    | Ping
    | ToolsList
    | ToolsCall(name: string, arguments: string)
    | OtherMethod(name: string)

  datatype ToServer = Request(id: nat, call: Call) | Initialized | OtherNotification(name: string)

  datatype Reply = Result(value: string) | Error(code: int)

  datatype ToClient = Response(id: nat, reply: Reply) | Notification(name: string) | ServerRequest(name: string)

  const SERVER_NOT_INITIALIZED := -32002
  const METHOD_NOT_FOUND := -32601
  const INVALID_PARAMS := -32602

  predicate NeedsReady(c: Call) { c.ToolsList? || c.ToolsCall? }

  /* ---- the server ---- */

  datatype ServerState = AwaitingInitialize | AwaitingInitialized | Ready

  /** One message: the next state and the reply, if any.  `answer` is what the handler of
      a tools request computes once the server is ready. */
  function Handle(s: ServerState, m: ToServer, answer: Reply): (ServerState, Option<ToClient>) {
    match m
    case OtherNotification(_) => (s, None)
    case Initialized => (if s.AwaitingInitialized? then Ready else s, None)
    case Request(id, call) =>
      match call
      case Initialize(None) => (s, Some(Response(id, Error(INVALID_PARAMS))))
      case Initialize(Some(_)) => (AwaitingInitialized, Some(Response(id, Result("2025-03-26"))))
      case Ping => (s, Some(Response(id, Result("{}"))))
      case OtherMethod(_) => (s, Some(Response(id, Error(METHOD_NOT_FOUND))))
      case _ => (s, Some(Response(id, if s.Ready? then answer else Error(SERVER_NOT_INITIALIZED))))
  }

  class Server {
    var state: ServerState

    constructor ()
      ensures state == AwaitingInitialize
    {
      state := AwaitingInitialize;
    }

    /** Requests get exactly one response with their id, notifications none. */
    method HandleMessage(m: ToServer, answer: Reply) returns (response: Option<ToClient>)
      modifies this
      ensures (state, response) == Handle(old(state), m, answer)
      ensures m.Request? <==> response.Some?
      ensures m.Request? ==> response.value.Response? && response.value.id == m.id
      ensures m.Request? && (m.call.ToolsList? || m.call.ToolsCall?) ==>
                state == old(state) &&
                response.value.reply == if old(state) == Ready then answer else Error(-32002)
      ensures m.Request? && m.call.Initialize? ==>
                if m.call.version.Some?
                then state == AwaitingInitialized && response.value.reply == Result("2025-03-26")
                else state == old(state) && response.value.reply == Error(-32602)
      ensures m.Request? && m.call.Ping? ==> state == old(state) && response.value.reply == Result("{}")
      ensures m.Request? && m.call.OtherMethod? ==> state == old(state) && response.value.reply == Error(-32601)
      ensures m.Initialized? ==> state == if old(state) == AwaitingInitialized then Ready else old(state)
      ensures m.OtherNotification? ==> state == old(state)
    {
      response := None;
      match m
      case OtherNotification(_) =>
      case Initialized =>
        if state == AwaitingInitialized { state := Ready; }
      case Request(id, call) =>
        var reply := Error(METHOD_NOT_FOUND);
        match call {
          case Initialize(None) => reply := Error(INVALID_PARAMS);
          case Initialize(Some(_)) =>
            state := AwaitingInitialized;
            reply := Result("2025-03-26");
          case Ping => reply := Result("{}");
          case OtherMethod(_) =>
          case _ =>
            if state != Ready {
              reply := Error(SERVER_NOT_INITIALIZED);
            } else {
              reply := answer;
            }
        }
        response := Some(Response(id, reply));
    }
  }

  /* ---- what a server has been told ---- */

  function StateAfter(ms: seq<ToServer>): ServerState {
    if ms == [] then AwaitingInitialize
    else Handle(StateAfter(ms[..|ms| - 1]), ms[|ms| - 1], Error(0)).0
  }

  predicate Opens(m: ToServer) { m.Request? && m.call.Initialize? && m.call.version.Some? }

  /** The last `initialize` with a version is at `i`. */
  predicate LastOpening(ms: seq<ToServer>, i: nat) {
    i < |ms| && Opens(ms[i]) && forall k :: i < k < |ms| ==> !Opens(ms[k])
  }

  ghost predicate Opened(ms: seq<ToServer>) { exists i: nat :: i < |ms| && Opens(ms[i]) }

  /** An `initialized` notification has followed the last `initialize` with a version. */
  ghost predicate Completed(ms: seq<ToServer>) {
    exists i: nat, j: nat :: LastOpening(ms, i) && i < j < |ms| && ms[j].Initialized?
  }

  lemma OpenedMore(ms: seq<ToServer>, m: ToServer)
    ensures Opened(ms + [m]) <==> Opened(ms) || Opens(m)
  {
    var all := ms + [m];
    assert forall i :: 0 <= i < |ms| ==> all[i] == ms[i];
    if Opened(ms) {
      var i: nat :| i < |ms| && Opens(ms[i]);
      assert Opens(all[i]);
    }
    if Opens(m) { assert Opens(all[|ms|]); }
  }

  lemma HasLastOpening(ms: seq<ToServer>) returns (i: nat)
    requires Opened(ms)
    ensures LastOpening(ms, i)
  {
    var k: nat :| k < |ms| && Opens(ms[k]);
    i := k;
    for j := k + 1 to |ms|
      invariant k <= i < j && Opens(ms[i]) && forall x :: i < x < j ==> !Opens(ms[x])
    {
      if Opens(ms[j]) { i := j; }
    }
  }

  lemma CompletedMore(ms: seq<ToServer>, m: ToServer)
    ensures Opens(m) ==> !Completed(ms + [m])
    ensures m.Initialized? ==> (Completed(ms + [m]) <==> Opened(ms))
    ensures !Opens(m) && !m.Initialized? ==> (Completed(ms + [m]) <==> Completed(ms))
  {
    var all := ms + [m];
    assert forall i :: 0 <= i < |ms| ==> all[i] == ms[i];
    assert all[|ms|] == m;
    if Completed(all) {
      var i: nat, j: nat :| LastOpening(all, i) && i < j < |all| && all[j].Initialized?;
      assert i < |ms| && Opens(ms[i]) && LastOpening(ms, i);
    }
    if !Opens(m) && Opened(ms) && m.Initialized? {
      var i := HasLastOpening(ms);
      assert LastOpening(all, i) && i < |ms| < |all| && all[|ms|].Initialized?;
    }
    if !Opens(m) && Completed(ms) {
      var i: nat, j: nat :| LastOpening(ms, i) && i < j < |ms| && ms[j].Initialized?;
      assert LastOpening(all, i) && all[j].Initialized?;
    }
  }

  /** A server is ready exactly when `initialized` has followed the last `initialize` that
      named a version, and awaits `initialize` exactly until there has been one. */
  lemma {:induction false} ReadyIffHandshake(ms: seq<ToServer>)
    ensures StateAfter(ms) == Ready <==> Completed(ms)
    ensures StateAfter(ms) == AwaitingInitialize <==> !Opened(ms)
    decreases |ms|
  {
    hide Opened, Completed;
    if ms == [] {
      NothingTold();
    } else {
      var before, m := ms[..|ms| - 1], ms[|ms| - 1];
      ReadyIffHandshake(before);
      assert ms == before + [m];
      OpenedMore(before, m);
      CompletedMore(before, m);
    }
  }

  lemma NothingTold()
    ensures !Opened([]) && !Completed([])
  {}

  /* ---- the client ---- */

  datatype Outcome =
    | Returned(id: nat, value: string)
    | ServerError(id: nat, code: int)
    | Mismatch(id: nat, got: nat)
    | TimedOut(id: nat)

  /** What the receive loop of a request does with one message; `None` keeps waiting. */
  function OnMessage(id: nat, m: ToClient): Option<Outcome> {
    match m
    case Notification(_) => None
    case ServerRequest(_) => None
    case Response(got, reply) =>
      if got != id then Some(Mismatch(id, got))
      else match reply
        case Error(code) => Some(ServerError(id, code))
        case Result(value) => Some(Returned(id, value))
  }

  /** What `receive` delivers before the deadline, in order; the end of the list is the deadline. */
  function Await(id: nat, arrivals: seq<ToClient>): (Outcome, nat)
    decreases |arrivals|
  {
    if arrivals == [] then (TimedOut(id), 0)
    else match OnMessage(id, arrivals[0])
      case Some(o) => (o, 1)
      case None => var r := Await(id, arrivals[1..]); (r.0, r.1 + 1)
  }

  class ClientObject {
    var nextId: nat
    var initialized: bool

    constructor ()
      ensures nextId == 1 && !initialized
    {
      nextId, initialized := 1, false;
    }

    /** Send a request under a fresh id, then read until it is decided. */
    method RequestLoop(arrivals: seq<ToClient>) returns (outcome: Outcome, read: nat)
      modifies `nextId
      ensures nextId == old(nextId) + 1
      ensures (outcome, read) == Await(old(nextId), arrivals) && read <= |arrivals|
    {
      var id := nextId;
      nextId := nextId + 1;
      read := 0;
      while read < |arrivals|
        invariant read <= |arrivals|
        invariant Await(id, arrivals) == (Await(id, arrivals[read..]).0, Await(id, arrivals[read..]).1 + read)
      {
        var decided := OnMessage(id, arrivals[read]);
        assert arrivals[read..][1..] == arrivals[read + 1..];
        read := read + 1;
        if decided.Some? { return decided.value, read; }
      }
      outcome := TimedOut(id);
    }

    /** The handshake: a second call does nothing, a failed one may be retried. */
    method InitializeSession(arrivals: seq<ToClient>, completes: bool) returns (sent: seq<ToServer>, outcome: Option<Outcome>)
      modifies this
      ensures old(initialized) ==> sent == [] && outcome == None && initialized && nextId == old(nextId)
      ensures !old(initialized) ==>
                outcome == Some(Await(old(nextId), arrivals).0) && nextId == old(nextId) + 1 &&
                initialized == (outcome.value.Returned? && completes) &&
                sent == [Request(old(nextId), Initialize(Some("2025-03-26")))] +
                        (if initialized then [Initialized] else [])
    {
      if initialized { return [], None; }
      var id := nextId;
      var o, _ := RequestLoop(arrivals);
      sent := [Request(id, Initialize(Some("2025-03-26")))];
      if o.Returned? && completes {
        sent := sent + [Initialized];
        initialized := true;
      }
      outcome := Some(o);
    }
  }

  /* ---- the two joined by FIFO channels ---- */

  datatype Session = Session(
    nextId: nat, initialized: bool, waiting: Option<Call>,
    server: ServerState, up: seq<ToServer>, down: seq<ToClient>,
    asked: map<nat, Call>, answered: map<nat, Reply>, outcomes: seq<Outcome>)

  function Begin(): Session {
    Session(1, false, None, AwaitingInitialize, [], [], map[], map[], [])
  }

  datatype Action =
    | Send(call: Call)
    | ServerTurn(answer: Reply)
    | ServerSends(m: ToClient)
    | Receive(completes: bool)
    | Deadline

  /** The client sends `initialize` until a handshake succeeds and tools requests only
      afterwards; tools handlers never answer with the not-initialized error themselves. */
  predicate Enabled(s: Session, a: Action) {
    match a
    case Send(call) =>
      s.waiting.None? &&
      (if s.initialized then NeedsReady(call) else call.Initialize? && call.version.Some?)
    case ServerTurn(answer) => s.up != [] && answer != Error(SERVER_NOT_INITIALIZED)
    case ServerSends(m) => !m.Response?
    case Receive(_) => s.waiting.Some? && s.down != []
    case Deadline => s.waiting.Some?
  }

  /** A handshake answer completes the handshake unless its shape is refused or sending
      the notification fails (`completes` is false); then it may be retried. */
  function Finish(s: Session, o: Outcome, completes: bool): Session {
    var handshake := s.waiting.Some? && s.waiting.value.Initialize? && o.Returned? && completes;
    s.(waiting := None, outcomes := s.outcomes + [o],
       initialized := s.initialized || handshake,
       up := if handshake then s.up + [Initialized] else s.up)
  }

  /** The id of the request being awaited is the last one handed out. */
  function Step(s: Session, a: Action): Session
    requires Enabled(s, a)
  {
    match a
    case Send(call) =>
      s.(nextId := s.nextId + 1, waiting := Some(call), up := s.up + [Request(s.nextId, call)],
         asked := s.asked[s.nextId := call])
    case ServerTurn(answer) =>
      var m := s.up[0];
      var (state, response) := Handle(s.server, m, answer);
      s.(server := state, up := s.up[1..],
         down := if response.Some? then s.down + [response.value] else s.down,
         answered := if response.Some? && response.value.Response?
                     then s.answered[response.value.id := response.value.reply] else s.answered)
    case ServerSends(m) => s.(down := s.down + [m])
    case Receive(completes) =>
      var rest := s.(down := s.down[1..]);
      var decided := OnMessage(if s.nextId > 0 then s.nextId - 1 else 0, s.down[0]);
      if decided.None? then rest else Finish(rest, decided.value, completes)
    case Deadline => Finish(s, TimedOut(if s.nextId > 0 then s.nextId - 1 else 0), false)
  }

  predicate Runs(s: Session, actions: seq<Action>)
    decreases |actions|
  {
    actions == [] || (Enabled(s, actions[0]) && Runs(Step(s, actions[0]), actions[1..]))
  }

  function After(s: Session, actions: seq<Action>): Session
    requires Runs(s, actions)
    decreases |actions|
  {
    if actions == [] then s else After(Step(s, actions[0]), actions[1..])
  }

  /* ---- the receive loop is a run of the machine ---- */

  /** The steps of one receive loop that reads `n` messages. */
  function LoopSteps(n: nat, late: bool, completes: bool): seq<Action> {
    if n > 0 then [Receive(completes)] + LoopSteps(n - 1, late, completes)
    else if late then [Deadline]
    else []
  }

  lemma RunStartsWith(s: Session, a: Action, rest: seq<Action>)
    requires Enabled(s, a) && Runs(Step(s, a), rest)
    ensures Runs(s, [a] + rest) && After(s, [a] + rest) == After(Step(s, a), rest)
  {
    hide Step, Enabled;
    assert ([a] + rest)[1..] == rest;
  }

  /** For whatever prefix of the channel arrives before the deadline, the client's receive
      loop is a run of the machine, with the same outcome and the same messages consumed. */
  lemma {:induction false} LoopIsReceives(s: Session, arrived: nat, completes: bool)
    requires s.waiting.Some? && s.nextId > 0 && arrived <= |s.down|
    ensures var (o, n) := Await(s.nextId - 1, s.down[..arrived]);
            var steps := LoopSteps(n, o.TimedOut?, completes);
            n <= arrived && Runs(s, steps) &&
            After(s, steps) == Finish(s.(down := s.down[n..]), o, completes)
    decreases arrived
  {
    hide Runs, After, Finish;
    var (o, n) := Await(s.nextId - 1, s.down[..arrived]);
    if arrived == 0 {
      RunOfOne(s, Deadline);
      TimedOutNeverCompletes(s, o, completes);
      assert s.down[0..] == s.down;
    } else {
      var decided := OnMessage(s.nextId - 1, s.down[0]);
      if decided.Some? {
        RunOfOne(s, Receive(completes));
      } else {
        var t := s.(down := s.down[1..]);
        assert t == Step(s, Receive(completes));
        assert s.down[..arrived][1..] == s.down[1..][..arrived - 1];
        LoopIsReceives(t, arrived - 1, completes);
        RunStartsWith(s, Receive(completes), LoopSteps(n - 1, o.TimedOut?, completes));
        assert t.down[n - 1..] == s.down[n..];
      }
    }
  }

  lemma TimedOutNeverCompletes(s: Session, o: Outcome, completes: bool)
    requires o.TimedOut?
    ensures Finish(s, o, completes) == Finish(s, o, false)
  {}

  lemma RunOfOne(s: Session, a: Action)
    requires Enabled(s, a)
    ensures Runs(s, [a]) && After(s, [a]) == Step(s, a)
    ensures [a] + [] == [a]
  {
    hide Step, Enabled;
    assert [a][1..] == [];
  }

  /* ---- the invariant ---- */

  function RequestIds(up: seq<ToServer>): seq<nat> {
    if up == [] then []
    else (if up[0].Request? then [up[0].id] else []) + RequestIds(up[1..])
  }

  function ResponseIds(down: seq<ToClient>): seq<nat> {
    if down == [] then []
    else (if down[0].Response? then [down[0].id] else []) + ResponseIds(down[1..])
  }

  /** `ids` are `from`, `from + 1`, ... up to but not including `to`. */
  predicate Consecutive(ids: seq<nat>, from: int, to: int) {
    |ids| == to - from && forall i :: 0 <= i < |ids| ==> ids[i] == from + i
  }

  /** Requests and responses under way, oldest first. */
  function Outstanding(s: Session): seq<nat> { ResponseIds(s.down) + RequestIds(s.up) }

  /** Every request under way was asked, every response under way is the server's answer to
      the request of that id, and nothing is answered before it is taken from the channel. */
  predicate Honest(s: Session) {
    (forall i :: 0 <= i < |s.up| && s.up[i].Request? ==> s.up[i].id in s.asked && s.asked[s.up[i].id] == s.up[i].call) &&
    (forall i :: 0 <= i < |s.down| && s.down[i].Response? ==>
       s.down[i].id in s.answered && s.answered[s.down[i].id] == s.down[i].reply) &&
    (forall id :: id in s.asked ==> id < s.nextId) &&
    (forall id :: id in s.answered ==> id in s.asked && id < s.nextId - |RequestIds(s.up)|)
  }

  /** The k-th request is decided k-th; what it got is the server's answer to it or a failure. */
  predicate Paired(s: Session) {
    |s.outcomes| == s.nextId - 1 - (if s.waiting.Some? then 1 else 0) &&
    forall i :: 0 <= i < |s.outcomes| ==> s.outcomes[i].id == i + 1 && OutcomeIsTrue(s, s.outcomes[i])
  }

  predicate OutcomeIsTrue(s: Session, o: Outcome) {
    match o
    case Returned(id, value) => id in s.answered && s.answered[id] == Result(value)
    case ServerError(id, code) => id in s.answered && s.answered[id] == Error(code)
    case Mismatch(id, got) => got < id
    case TimedOut(_) => true
  }

  predicate IsPaired(o: Outcome) { o.Returned? || o.ServerError? }

  /** A request that met its deadline poisons the session: every later request that hears
      anything hears a stale answer. */
  predicate Poisoned(outcomes: seq<Outcome>) {
    forall j :: 0 <= j < |outcomes| && !outcomes[j].TimedOut? ==>
      (IsPaired(outcomes[j]) <==> !TimedOutBefore(outcomes, j))
  }

  predicate TimedOutBefore(outcomes: seq<Outcome>, j: nat)
    requires j <= |outcomes|
  {
    exists i :: 0 <= i < j && outcomes[i].TimedOut?
  }

  predicate Dirty(s: Session) { TimedOutBefore(s.outcomes, |s.outcomes|) }

  /** Nothing is under way but the awaited request, unless some request timed out; and
      then something older always is. */
  predicate Counted(s: Session) {
    |Outstanding(s)| < s.nextId && Consecutive(Outstanding(s), s.nextId - |Outstanding(s)|, s.nextId) &&
    (!Dirty(s) ==> |Outstanding(s)| == (if s.waiting.Some? then 1 else 0)) &&
    (Dirty(s) ==> |Outstanding(s)| > (if s.waiting.Some? then 1 else 0))
  }

  predicate OnlyTools(up: seq<ToServer>) {
    forall i :: 0 <= i < |up| ==> up[i].Request? && NeedsReady(up[i].call)
  }

  predicate OnlyInitialize(up: seq<ToServer>) {
    forall i :: 0 <= i < |up| ==> up[i].Request? && up[i].call.Initialize? && up[i].call.version.Some?
  }

  /** Until the handshake succeeds only `initialize` travels; afterwards the notification
      travels ahead of every tools request. */
  predicate Handshake(s: Session) {
    if !s.initialized then
      OnlyInitialize(s.up) && (s.waiting.Some? ==> s.waiting.value.Initialize?) &&
      s.server == (if |RequestIds(s.up)| == s.nextId - 1 then AwaitingInitialize else AwaitingInitialized)
    else
      (s.waiting.Some? ==> NeedsReady(s.waiting.value)) &&
      ((s.server.Ready? && OnlyTools(s.up)) ||
       (s.server.AwaitingInitialized? && s.up != [] && s.up[0] == Initialized && OnlyTools(s.up[1..])))
  }

  predicate NeverRefused(s: Session) {
    forall id :: id in s.answered ==> s.answered[id] != Error(SERVER_NOT_INITIALIZED)
  }

  predicate Inv(s: Session) {
    Honest(s) && Paired(s) && Counted(s) && Poisoned(s.outcomes) && Handshake(s) && NeverRefused(s)
  }

  /* ---- ids under way ---- */

  lemma {:induction false} RequestIdsAppend(up: seq<ToServer>, m: ToServer)
    ensures RequestIds(up + [m]) == RequestIds(up) + (if m.Request? then [m.id] else [])
  {
    if up == [] {
      assert up + [m] == [m] && [m][1..] == [];
    } else {
      RequestIdsAppend(up[1..], m);
      assert (up + [m])[1..] == up[1..] + [m];
    }
  }

  lemma {:induction false} ResponseIdsAppend(down: seq<ToClient>, m: ToClient)
    ensures ResponseIds(down + [m]) == ResponseIds(down) + (if m.Response? then [m.id] else [])
  {
    if down == [] {
      assert down + [m] == [m] && [m][1..] == [];
    } else {
      ResponseIdsAppend(down[1..], m);
      assert (down + [m])[1..] == down[1..] + [m];
    }
  }

  lemma {:induction false} AllRequestsCounted(up: seq<ToServer>)
    requires forall i :: 0 <= i < |up| ==> up[i].Request?
    ensures |RequestIds(up)| == |up|
  {
    if up != [] { AllRequestsCounted(up[1..]); }
  }

  lemma DirtyGrows(outcomes: seq<Outcome>, o: Outcome)
    ensures TimedOutBefore(outcomes + [o], |outcomes| + 1) <==> TimedOutBefore(outcomes, |outcomes|) || o.TimedOut?
    ensures forall j :: 0 <= j <= |outcomes| ==> (TimedOutBefore(outcomes + [o], j) <==> TimedOutBefore(outcomes, j))
  {
    var os := outcomes + [o];
    assert forall i :: 0 <= i < |outcomes| ==> os[i] == outcomes[i];
    if o.TimedOut? { assert os[|outcomes|].TimedOut?; }
    forall j | 0 <= j <= |outcomes| ensures TimedOutBefore(os, j) <==> TimedOutBefore(outcomes, j) {
      if TimedOutBefore(outcomes, j) {
        var i :| 0 <= i < j && outcomes[i].TimedOut?;
        assert os[i].TimedOut?;
      }
      if TimedOutBefore(os, j) {
        var i :| 0 <= i < j && os[i].TimedOut?;
        assert outcomes[i].TimedOut?;
      }
    }
    if TimedOutBefore(outcomes, |outcomes|) {
      var i :| 0 <= i < |outcomes| && outcomes[i].TimedOut?;
      assert os[i].TimedOut?;
    }
    if TimedOutBefore(os, |os|) {
      var i :| 0 <= i < |os| && os[i].TimedOut?;
      assert i < |outcomes| ==> outcomes[i].TimedOut?;
    }
  }

  lemma PoisonedGrows(outcomes: seq<Outcome>, o: Outcome)
    requires Poisoned(outcomes)
    requires !o.TimedOut? ==> (IsPaired(o) <==> !TimedOutBefore(outcomes, |outcomes|))
    ensures Poisoned(outcomes + [o])
  {
    hide TimedOutBefore;
    DirtyGrows(outcomes, o);
    var os := outcomes + [o];
    forall j | 0 <= j < |os| && !os[j].TimedOut? ensures IsPaired(os[j]) <==> !TimedOutBefore(os, j) {
      if j < |outcomes| { assert os[j] == outcomes[j]; }
    }
  }

  /* ---- each action keeps the invariant ---- */

  lemma SendCounted(s: Session, call: Call)
    requires Inv(s) && Enabled(s, Send(call))
    ensures Counted(Step(s, Send(call)))
    ensures |RequestIds(Step(s, Send(call)).up)| == |RequestIds(s.up)| + 1
  {
    hide TimedOutBefore, Poisoned, Honest, Paired, Handshake, NeverRefused, RequestIds, ResponseIds;
    RequestIdsAppend(s.up, Request(s.nextId, call));
    assert Outstanding(Step(s, Send(call))) == Outstanding(s) + [s.nextId];
  }

  lemma SendHonest(s: Session, call: Call)
    requires Inv(s) && Enabled(s, Send(call))
    ensures Honest(Step(s, Send(call))) && NeverRefused(Step(s, Send(call)))
  {
    hide TimedOutBefore, Poisoned, Counted, Paired, Handshake, RequestIds;
    SendCounted(s, call);
    assert s.nextId !in s.asked;
  }

  lemma SendHandshake(s: Session, call: Call)
    requires Inv(s) && Enabled(s, Send(call))
    ensures Handshake(Step(s, Send(call)))
  {
    hide TimedOutBefore, Poisoned, Counted, Paired, Honest, NeverRefused, RequestIds;
    SendCounted(s, call);
    var m := Request(s.nextId, call);
    if s.initialized && s.server.AwaitingInitialized? { assert (s.up + [m])[1..] == s.up[1..] + [m]; }
  }

  lemma SendKeeps(s: Session, call: Call)
    requires Inv(s) && Enabled(s, Send(call))
    ensures Inv(Step(s, Send(call)))
  {
    hide TimedOutBefore, Poisoned, Counted, Honest, Handshake, NeverRefused, RequestIds;
    SendCounted(s, call);
    SendHonest(s, call);
    SendHandshake(s, call);
  }

  lemma ServerSendsKeeps(s: Session, m: ToClient)
    requires Inv(s) && !m.Response?
    ensures Inv(Step(s, ServerSends(m)))
  {
    hide TimedOutBefore, Poisoned, Consecutive, RequestIds, ResponseIds, Handshake;
    ResponseIdsAppend(s.down, m);
    var t := Step(s, ServerSends(m));
    assert Outstanding(t) == Outstanding(s);
    assert Handshake(t) by { HandshakeFrame(s, t); }
  }

  /** The handshake clause reads nothing of the downward channel and the records. */
  lemma HandshakeFrame(s: Session, t: Session)
    requires Handshake(s) && s.initialized == t.initialized && s.server == t.server && s.up == t.up
    requires s.nextId == t.nextId && (s.waiting == t.waiting || t.waiting.None?)
    ensures Handshake(t)
  {
    hide RequestIds, OnlyTools, OnlyInitialize;
  }

  /** The server is ready for every tools request that reaches the head of its channel. */
  lemma ReadyForTools(s: Session)
    requires Handshake(s) && s.up != [] && s.up[0].Request? && NeedsReady(s.up[0].call)
    ensures s.server.Ready?
  {
    assert s.initialized;
  }

  lemma RequestIdsHead(up: seq<ToServer>)
    requires up != []
    ensures RequestIds(up) == (if up[0].Request? then [up[0].id] else []) + RequestIds(up[1..])
  {}

  lemma ServerTurnIds(s: Session, answer: Reply)
    requires Inv(s) && Enabled(s, ServerTurn(answer))
    ensures var t := Step(s, ServerTurn(answer));
            Outstanding(t) == Outstanding(s) &&
            |RequestIds(t.up)| == |RequestIds(s.up)| - (if s.up[0].Request? then 1 else 0) &&
            (s.up[0].Request? ==> s.up[0].id == s.nextId - |RequestIds(s.up)| && |RequestIds(s.up)| < s.nextId)
  {
    hide TimedOutBefore, Poisoned, Honest, Paired, Handshake, NeverRefused, RequestIds, ResponseIds;
    var m := s.up[0];
    var t := Step(s, ServerTurn(answer));
    RequestIdsHead(s.up);
    if m.Request? {
      var r := Handle(s.server, m, answer).1.value;
      ResponseIdsAppend(s.down, r);
      assert r.id == m.id && RequestIds(s.up) == [m.id] + RequestIds(t.up);
      assert Outstanding(s)[|ResponseIds(s.down)|] == m.id;
    }
  }

  lemma ServerTurnHonest(s: Session, answer: Reply)
    requires Inv(s) && Enabled(s, ServerTurn(answer))
    ensures Honest(Step(s, ServerTurn(answer)))
  {
    hide TimedOutBefore, Poisoned, Counted, Paired, Handshake, NeverRefused, RequestIds;
    ServerTurnIds(s, answer);
    var t := Step(s, ServerTurn(answer));
    var m := s.up[0];
    assert forall i :: 0 <= i < |t.up| ==> t.up[i] == s.up[i + 1];
    if m.Request? {
      assert m.id in s.asked && m.id !in s.answered;
      assert forall id :: id in s.answered ==> id in t.answered && t.answered[id] == s.answered[id];
    }
  }

  lemma ServerTurnPaired(s: Session, answer: Reply)
    requires Inv(s) && Enabled(s, ServerTurn(answer))
    ensures NeverRefused(Step(s, ServerTurn(answer))) && Paired(Step(s, ServerTurn(answer)))
  {
    hide TimedOutBefore, Poisoned, Counted, Handshake, RequestIds;
    ServerTurnIds(s, answer);
    var t := Step(s, ServerTurn(answer));
    var m := s.up[0];
    if m.Request? {
      if NeedsReady(m.call) { ReadyForTools(s); }
      assert m.id !in s.answered;
      assert forall id :: id in s.answered ==> id in t.answered && t.answered[id] == s.answered[id];
    }
  }

  lemma ServerTurnHandshake(s: Session, answer: Reply)
    requires Inv(s) && Enabled(s, ServerTurn(answer))
    ensures Handshake(Step(s, ServerTurn(answer)))
  {
    hide TimedOutBefore, Poisoned, Counted, Honest, Paired, NeverRefused, RequestIds;
    ServerTurnIds(s, answer);
    var t := Step(s, ServerTurn(answer));
    assert forall i :: 0 <= i < |t.up| ==> t.up[i] == s.up[i + 1];
  }

  lemma ServerTurnKeeps(s: Session, answer: Reply)
    requires Inv(s) && Enabled(s, ServerTurn(answer))
    ensures Inv(Step(s, ServerTurn(answer)))
  {
    hide TimedOutBefore, Poisoned, Honest, Paired, Handshake, NeverRefused, RequestIds, ResponseIds;
    ServerTurnIds(s, answer);
    ServerTurnHonest(s, answer);
    ServerTurnPaired(s, answer);
    ServerTurnHandshake(s, answer);
  }

  lemma DeadlineKeeps(s: Session)
    requires Inv(s) && s.waiting.Some?
    ensures Inv(Step(s, Deadline))
  {
    hide TimedOutBefore, Poisoned, RequestIds, ResponseIds, Consecutive, Handshake;
    var o := TimedOut(s.nextId - 1);
    DirtyGrows(s.outcomes, o);
    PoisonedGrows(s.outcomes, o);
    var t := Step(s, Deadline);
    assert t.up == s.up && Outstanding(t) == Outstanding(s);
    HandshakeFrame(s, t);
  }

  lemma ReceiveIds(down: seq<ToClient>)
    requires down != []
    ensures ResponseIds(down) == (if down[0].Response? then [down[0].id] else []) + ResponseIds(down[1..])
  {}

  /** What the head of the channel tells the waiting client. */
  lemma ReceivedIsOldest(s: Session)
    requires Inv(s) && s.waiting.Some? && s.down != [] && s.down[0].Response?
    ensures s.down[0].id == s.nextId - |Outstanding(s)| && s.down[0].id < s.nextId && s.nextId > 1
    ensures s.down[0].id == s.nextId - 1 <==> !Dirty(s)
    ensures !Dirty(s) ==> RequestIds(s.up) == [] && ResponseIds(s.down[1..]) == []
  {
    hide TimedOutBefore, RequestIds, ResponseIds, Poisoned, Honest, Paired, Handshake, NeverRefused;
    var ids := Outstanding(s);
    ReceiveIds(s.down);
    assert ids == [s.down[0].id] + (ResponseIds(s.down[1..]) + RequestIds(s.up));
    assert ids[0] == s.down[0].id;
  }

  lemma DropFirstConsecutive(ids: seq<nat>, first: nat, rest: seq<nat>, to: int)
    requires ids == [first] + rest && Consecutive(ids, to - |ids|, to)
    ensures Consecutive(rest, to - |rest|, to)
  {
    assert forall i :: 0 <= i < |rest| ==> rest[i] == ids[i + 1];
  }

  lemma ReceiveSkip(s: Session, completes: bool)
    requires Inv(s) && s.waiting.Some? && s.down != [] && !s.down[0].Response?
    ensures Inv(Step(s, Receive(completes)))
  {
    hide TimedOutBefore, Poisoned, Consecutive, RequestIds, ResponseIds, Handshake;
    var t := Step(s, Receive(completes));
    assert t == s.(down := s.down[1..]);
    ReceiveIds(s.down);
    assert Outstanding(t) == Outstanding(s);
    assert forall i :: 0 <= i < |t.down| ==> t.down[i] == s.down[i + 1];
    HandshakeFrame(s, t);
  }

  lemma ReceiveCounted(s: Session, completes: bool)
    requires Inv(s) && s.waiting.Some? && s.down != [] && s.down[0].Response?
    ensures Counted(Step(s, Receive(completes))) && Poisoned(Step(s, Receive(completes)).outcomes)
  {
    hide TimedOutBefore, Poisoned, Honest, Paired, Handshake, NeverRefused, RequestIds, ResponseIds;
    var t := Step(s, Receive(completes));
    ReceivedIsOldest(s);
    ReceiveIds(s.down);
    var o := OnMessage(s.nextId - 1, s.down[0]).value;
    assert t.outcomes == s.outcomes + [o] && !o.TimedOut?;
    DirtyGrows(s.outcomes, o);
    PoisonedGrows(s.outcomes, o);
    var rest := ResponseIds(s.down[1..]) + RequestIds(s.up);
    assert Outstanding(s) == [s.down[0].id] + rest;
    RequestIdsAppend(s.up, Initialized);
    assert RequestIds(t.up) == RequestIds(s.up);
    DropFirstConsecutive(Outstanding(s), s.down[0].id, rest, s.nextId);
  }

  lemma ReceiveHandshake(s: Session, completes: bool)
    requires Inv(s) && s.waiting.Some? && s.down != [] && s.down[0].Response?
    ensures Handshake(Step(s, Receive(completes)))
  {
    hide TimedOutBefore, Poisoned, Honest, Paired, NeverRefused, Counted, RequestIds, ResponseIds, Handshake;
    var t := Step(s, Receive(completes));
    ReceivedIsOldest(s);
    if t.up == s.up {
      HandshakeFrame(s, t);
    } else {
      HandshakeCompletes(s, t);
    }
  }

  lemma HandshakeCompletes(s: Session, t: Session)
    requires Handshake(s) && s.waiting.Some? && s.waiting.value.Initialize?
    requires RequestIds(s.up) == [] && s.nextId > 1
    requires t.initialized && t.server == s.server && t.waiting.None? && t.up == s.up + [Initialized]
    ensures Handshake(t)
  {
    hide RequestIds;
    if !s.initialized {
      AllRequestsCounted(s.up);
      assert t.up == [Initialized];
    }
  }

  lemma ReceiveHonest(s: Session, completes: bool)
    requires Inv(s) && s.waiting.Some? && s.down != [] && s.down[0].Response?
    ensures Honest(Step(s, Receive(completes))) && NeverRefused(Step(s, Receive(completes)))
    ensures Paired(Step(s, Receive(completes)))
  {
    hide TimedOutBefore, Poisoned, Handshake, Counted, RequestIds, ResponseIds;
    var t := Step(s, Receive(completes));
    ReceivedIsOldest(s);
    RequestIdsAppend(s.up, Initialized);
    assert forall i :: 0 <= i < |t.down| ==> t.down[i] == s.down[i + 1];
    assert t.asked == s.asked && t.answered == s.answered && t.nextId == s.nextId;
  }

  lemma StepKeepsInv(s: Session, a: Action)
    requires Inv(s) && Enabled(s, a)
    ensures Inv(Step(s, a))
  {
    hide Honest, Paired, Counted, Poisoned, Handshake, NeverRefused, Step;
    match a
    case Send(call) => SendKeeps(s, call);
    case ServerTurn(answer) => ServerTurnKeeps(s, answer);
    case ServerSends(m) => ServerSendsKeeps(s, m);
    case Deadline => DeadlineKeeps(s);
    case Receive(completes) =>
      if s.down[0].Response? {
        ReceiveCounted(s, completes);
        ReceiveHandshake(s, completes);
        ReceiveHonest(s, completes);
      } else {
        ReceiveSkip(s, completes);
      }
  }

  lemma BeginInv()
    ensures Inv(Begin())
  {}

  lemma {:induction false} RunKeepsInv(s: Session, actions: seq<Action>)
    requires Inv(s) && Runs(s, actions)
    ensures Inv(After(s, actions))
    decreases |actions|
  {
    hide Inv, Step;
    if actions != [] {
      StepKeepsInv(s, actions[0]);
      RunKeepsInv(Step(s, actions[0]), actions[1..]);
    }
  }

  /* ---- the theorems ---- */

  /** In every run, what the k-th request returned is the server's answer to that request;
      it got one exactly when it was not late itself and no earlier request was; every
      other arrival was a stale answer and was reported as a mismatch. */
  lemma RequestsArePaired(actions: seq<Action>, k: nat)
    requires Runs(Begin(), actions) && k < |After(Begin(), actions).outcomes|
    ensures var s := After(Begin(), actions); var o := s.outcomes[k];
            o.id == k + 1 && o.id in s.asked &&
            (o.Returned? ==> o.id in s.answered && s.answered[o.id] == Result(o.value)) &&
            (o.ServerError? ==> o.id in s.answered && s.answered[o.id] == Error(o.code)) &&
            (o.Mismatch? ==> o.got < o.id) &&
            (IsPaired(o) <==> !o.TimedOut? && !TimedOutBefore(s.outcomes, k))
  {
    hide Honest, Counted, Handshake, NeverRefused, Runs, After, TimedOutBefore;
    BeginInv();
    RunKeepsInv(Begin(), actions);
    AskedAreAll(actions, k + 1);
  }

  /** Once a request has timed out, no later request of the session ever returns. */
  lemma NoReturnAfterTimeout(actions: seq<Action>, i: nat, j: nat)
    requires Runs(Begin(), actions) && i < j < |After(Begin(), actions).outcomes|
    requires After(Begin(), actions).outcomes[i].TimedOut?
    ensures !IsPaired(After(Begin(), actions).outcomes[j])
  {
    RequestsArePaired(actions, j);
    assert TimedOutBefore(After(Begin(), actions).outcomes, j);
  }

  /** In every run the server is ready for each tools request it takes from the channel, so
      no request is ever refused with -32002, failed and retried handshakes included. */
  lemma ToolsOnlyWhenReady(actions: seq<Action>)
    requires Runs(Begin(), actions)
    ensures var s := After(Begin(), actions);
            (s.up != [] && s.up[0].Request? && NeedsReady(s.up[0].call) ==> s.server.Ready?) &&
            forall id :: id in s.answered ==> s.answered[id] != Error(SERVER_NOT_INITIALIZED)
  {
    BeginInv();
    RunKeepsInv(Begin(), actions);
    var s := After(Begin(), actions);
    if s.up != [] && s.up[0].Request? && NeedsReady(s.up[0].call) { ReadyForTools(s); }
  }

  predicate AllAsked(s: Session) { forall id :: 1 <= id < s.nextId ==> id in s.asked }

  lemma {:induction false} AllAskedKept(s: Session, actions: seq<Action>)
    requires s.nextId >= 1 && AllAsked(s) && Runs(s, actions)
    ensures AllAsked(After(s, actions))
    decreases |actions|
  {
    if actions != [] { AllAskedKept(Step(s, actions[0]), actions[1..]); }
  }

  lemma AskedAreAll(actions: seq<Action>, id: nat)
    requires Runs(Begin(), actions) && 1 <= id <= |After(Begin(), actions).outcomes|
    ensures id in After(Begin(), actions).asked
  {
    AllAskedKept(Begin(), actions);
    BeginInv();
    RunKeepsInv(Begin(), actions);
  }

  /** An answer, once given, never changes. */
  lemma AnswersAreFinal(s: Session, a: Action, id: nat)
    requires Inv(s) && Enabled(s, a) && id in s.answered
    ensures id in Step(s, a).answered && Step(s, a).answered[id] == s.answered[id]
  {
    hide Poisoned, Counted, Paired, Handshake, NeverRefused;
    if a.ServerTurn? && s.up[0].Request? {
      ServerTurnIds(s, a.answer);
    }
  }
}
