/** A streamed answer: tool calls arrive in fragments spread over chunks and are put together
    per index at the end. */
module StreamAssembly {
  import opened Sequences
  import opened Options

  /** One entry of a chunk's tool calls; `""` stands for an absent or empty string. */
  datatype Fragment = Fragment(index: Option<int>, hasFunction: bool, id: string, name: string, args: string)

  type Usage = map<string, int>

  /** A chunk without a choice is skipped, whatever else it carries. */
  datatype Chunk = Chunk(hasChoice: bool, text: string, fragments: seq<Fragment>, finish: string, usage: Usage)

  datatype Slot = Slot(id: string, name: string, args: seq<string>)

  /** Parsed arguments: the empty object, a loaded value, or the raw text that did not parse. */
  datatype Arguments<J> = NoArguments | Loaded(value: J) | Raw(text: string)

  datatype ToolCall<J> = ToolCall(id: string, name: string, arguments: Arguments<J>)

  datatype Response<J> = Response(content: string, calls: seq<ToolCall<J>>, stop: Option<string>, usage: Usage)

  datatype Event<J> = Text(delta: string) | Done(response: Response<J>)

  function MapStop(finish: string): string {
    match finish
    case "stop" => "end_turn"
    case "length" => "max_tokens"
    case "tool_calls" => "tool_use"
    case "function_call" => "tool_use"
    case "content_filter" => "end_turn"
    case _ => finish
  }

  /** `loads` parses JSON text; `None` is a parse error. */
  function FromSlot<J>(slot: Slot, loads: string -> Option<J>): ToolCall<J> {
    var raw := Join(slot.args);
    ToolCall(slot.id, slot.name,
             if raw == "" then NoArguments
             else if loads(raw).Some? then Loaded(loads(raw).value)
             else Raw(raw))
  }

  /* ---- accumulation ---- */

  const EMPTY := Slot("", "", [])

  function Index(f: Fragment): int { if f.index.Some? then f.index.value else 0 }

  function Absorb(slot: Slot, f: Fragment): Slot {
    Slot(if f.id != "" then f.id else slot.id,
         if f.name != "" then f.name else slot.name,
         if f.args != "" then slot.args + [f.args] else slot.args)
  }

  function Put(slots: map<int, Slot>, f: Fragment): map<int, Slot> {
    slots[Index(f) := Absorb(if Index(f) in slots then slots[Index(f)] else EMPTY, f)]
  }

  function Slots(fs: seq<Fragment>): map<int, Slot> {
    if fs == [] then map[] else Put(Slots(fs[..|fs| - 1]), fs[|fs| - 1])
  }

  function Usable(fs: seq<Fragment>): seq<Fragment> {
    if fs == [] then []
    else Usable(fs[..|fs| - 1]) + (if fs[|fs| - 1].hasFunction then [fs[|fs| - 1]] else [])
  }

  function Fragments(chunks: seq<Chunk>): seq<Fragment> {
    if chunks == [] then []
    else
      var c := chunks[|chunks| - 1];
      Fragments(chunks[..|chunks| - 1]) + (if c.hasChoice then Usable(c.fragments) else [])
  }

  function Deltas(chunks: seq<Chunk>): seq<string> {
    if chunks == [] then []
    else
      var c := chunks[|chunks| - 1];
      Deltas(chunks[..|chunks| - 1]) + (if c.hasChoice && c.text != "" then [c.text] else [])
  }

  function Finish(chunks: seq<Chunk>): Option<string> {
    if chunks == [] then None
    else
      var c := chunks[|chunks| - 1];
      if c.hasChoice && c.finish != "" then Some(c.finish) else Finish(chunks[..|chunks| - 1])
  }

  /** Later counters overwrite earlier ones of the same name. */
  function Counters(chunks: seq<Chunk>): Usage {
    if chunks == [] then map[]
    else
      var c := chunks[|chunks| - 1];
      if c.hasChoice then Counters(chunks[..|chunks| - 1]) + c.usage else Counters(chunks[..|chunks| - 1])
  }

  /* ---- ascending keys ---- */

  predicate Ascending(keys: seq<int>) { forall i, j :: 0 <= i < j < |keys| ==> keys[i] < keys[j] }

  function Elements(keys: seq<int>): set<int> { set k | k in keys }

  lemma {:induction false} HasLeast(keys: set<int>)
    requires keys != {}
    ensures exists k :: k in keys && forall other :: other in keys ==> k <= other
  {
    assert (forall k :: k !in keys) ==> keys == {};
    var k :| k in keys;
    var rest := keys - {k};
    if rest == {} {
      assert forall other :: other in keys ==> other == k || other in rest;
      assert forall other :: other in keys ==> k <= other;
    } else {
      HasLeast(rest);
      var least :| least in rest && forall other :: other in rest ==> least <= other;
      var m := if k < least then k else least;
      assert m in keys && forall other :: other in keys ==> m <= other by {
        assert forall other :: other in keys ==> other == k || other in rest;
      }
    }
  }

  /** Keys are sorted when the stream ends. */
  function SortKeys(keys: set<int>): (r: seq<int>)
    ensures Ascending(r) && Elements(r) == keys
  {
    if keys == {} then []
    else
      HasLeast(keys);
      var least :| least in keys && forall other :: other in keys ==> least <= other;
      var rest := SortKeys(keys - {least});
      LeastFirst(least, rest);
      [least] + rest
  }

  lemma LeastFirst(least: int, rest: seq<int>)
    requires Ascending(rest) && forall k :: k in Elements(rest) ==> least < k
    ensures Ascending([least] + rest) && Elements([least] + rest) == {least} + Elements(rest)
  {
    assert forall i :: 0 <= i < |rest| ==> rest[i] in Elements(rest);
  }

  lemma {:induction false} AscendingIsUnique(a: seq<int>, b: seq<int>)
    requires Ascending(a) && Ascending(b) && Elements(a) == Elements(b)
    ensures a == b
    decreases |a|
  {
    if a != [] { assert a[0] in Elements(a); }
    if b != [] { assert b[0] in Elements(b); }
    if a != [] {
      assert a[0] in Elements(a) && b[0] in Elements(b);
      var i :| 0 <= i < |a| && a[i] == b[0];
      var j :| 0 <= j < |b| && b[j] == a[0];
      assert a[0] == b[0];
      TailElements(a);
      TailElements(b);
      AscendingIsUnique(a[1..], b[1..]);
      assert a == [a[0]] + a[1..] && b == [b[0]] + b[1..];
    }
  }

  lemma TailElements(a: seq<int>)
    requires Ascending(a) && a != []
    ensures Ascending(a[1..]) && Elements(a[1..]) == Elements(a) - {a[0]}
  {
    forall k | k in Elements(a) && k != a[0] ensures k in Elements(a[1..]) {
      var i :| 0 <= i < |a| && a[i] == k;
      assert a[1..][i - 1] == k;
    }
  }

  function CallsOf<J>(slots: map<int, Slot>, keys: seq<int>, loads: string -> Option<J>): seq<ToolCall<J>>
    requires forall i :: 0 <= i < |keys| ==> keys[i] in slots
  {
    seq(|keys|, i requires 0 <= i < |keys| => FromSlot(slots[keys[i]], loads))
  }

  lemma KeysInSlots(slots: map<int, Slot>)
    ensures var keys := SortKeys(slots.Keys); forall i :: 0 <= i < |keys| ==> keys[i] in slots
  {
    var keys := SortKeys(slots.Keys);
    forall i | 0 <= i < |keys| ensures keys[i] in slots { assert keys[i] in Elements(keys); }
  }

  /** The answer that the `done` event carries. */
  function Streamed<J>(chunks: seq<Chunk>, loads: string -> Option<J>): Response<J> {
    var slots := Slots(Fragments(chunks));
    KeysInSlots(slots);
    Response(Join(Deltas(chunks)), CallsOf(slots, SortKeys(slots.Keys), loads),
             Stop(Finish(chunks)), Counters(chunks))
  }

  function Texts<J>(deltas: seq<string>): seq<Event<J>> {
    seq(|deltas|, i requires 0 <= i < |deltas| => Text(deltas[i]))
  }

  function Stop(finish: Option<string>): Option<string> {
    if finish.Some? then Some(MapStop(finish.value)) else None
  }

  /** Text events as chunks arrive, then one `done`. */
  method ChatStream<J>(chunks: seq<Chunk>, loads: string -> Option<J>) returns (events: seq<Event<J>>)
    ensures events == Texts(Deltas(chunks)) + [Done(Streamed(chunks, loads))]
  {
    hide Slots, Fragments, Deltas, Finish, Counters, Usable, FromSlot, SortKeys, Join, MapStop, CallsOf;
    var texts: seq<string> := [];
    var slots: map<int, Slot> := map[];
    var stop: Option<string> := None;
    var usage: Usage := map[];
    events := [];
    NoChunks();
    for i := 0 to |chunks|
      invariant texts == Deltas(chunks[..i]) && events == Texts(texts)
      invariant slots == Slots(Fragments(chunks[..i]))
      invariant stop == Stop(Finish(chunks[..i])) && usage == Counters(chunks[..i])
    {
      var c := chunks[i];
      ChunkStep(chunks, i);
      if !c.hasChoice { continue; }
      if c.text != "" {
        texts := texts + [c.text];
        events := events + [Text(c.text)];
      }
      slots := PutAll(slots, c.fragments, Fragments(chunks[..i]));
      if c.finish != "" { stop := Some(MapStop(c.finish)); }
      usage := usage + c.usage;
    }
    assert chunks[..|chunks|] == chunks;
    var calls := MakeCalls(slots, loads);
    events := events + [Done(Response(Join(texts), calls, stop, usage))];
  }

  lemma NoChunks()
    ensures Deltas([]) == [] && Fragments([]) == [] && Finish([]) == None && Counters([]) == map[]
    ensures Slots([]) == map[] && Usable([]) == []
  {}

  lemma ChunkStep(chunks: seq<Chunk>, i: nat)
    requires i < |chunks|
    ensures var c := chunks[i];
            Deltas(chunks[..i + 1]) ==
              (if c.hasChoice && c.text != "" then Deltas(chunks[..i]) + [c.text] else Deltas(chunks[..i])) &&
            Fragments(chunks[..i + 1]) ==
              (if c.hasChoice then Fragments(chunks[..i]) + Usable(c.fragments) else Fragments(chunks[..i])) &&
            Finish(chunks[..i + 1]) ==
              (if c.hasChoice && c.finish != "" then Some(c.finish) else Finish(chunks[..i])) &&
            Counters(chunks[..i + 1]) ==
              (if c.hasChoice then Counters(chunks[..i]) + c.usage else Counters(chunks[..i]))
  {
    hide Usable;
    assert chunks[..i + 1][..i] == chunks[..i];
    assert Deltas(chunks[..i]) + [] == Deltas(chunks[..i]);
    assert Fragments(chunks[..i]) + [] == Fragments(chunks[..i]);
  }

  method MakeCalls<J>(slots: map<int, Slot>, loads: string -> Option<J>) returns (calls: seq<ToolCall<J>>)
    ensures var keys := SortKeys(slots.Keys);
            (forall i :: 0 <= i < |keys| ==> keys[i] in slots) && calls == CallsOf(slots, keys, loads)
  {
    hide FromSlot, SortKeys;
    KeysInSlots(slots);
    calls := [];
    var keys := SortKeys(slots.Keys);
    for k := 0 to |keys|
      invariant |calls| == k && calls == CallsOf(slots, keys, loads)[..k]
    {
      calls := calls + [FromSlot(slots[keys[k]], loads)];
    }
  }

  method PutAll(slots: map<int, Slot>, fs: seq<Fragment>, ghost before: seq<Fragment>) returns (after: map<int, Slot>)
    requires slots == Slots(before)
    ensures after == Slots(before + Usable(fs))
  {
    hide Slots, Put, Usable;
    after := slots;
    NoChunks();
    assert before + [] == before;
    for j := 0 to |fs|
      invariant after == Slots(before + Usable(fs[..j]))
    {
      FragmentStep(fs, j, before);
      if !fs[j].hasFunction { continue; }
      after := Put(after, fs[j]);
    }
    assert fs[..|fs|] == fs;
  }

  lemma FragmentStep(fs: seq<Fragment>, j: nat, before: seq<Fragment>)
    requires j < |fs|
    ensures Slots(before + Usable(fs[..j + 1])) ==
            if fs[j].hasFunction then Put(Slots(before + Usable(fs[..j])), fs[j])
            else Slots(before + Usable(fs[..j]))
  {
    hide Put;
    assert fs[..j + 1][..j] == fs[..j];
    var done := before + Usable(fs[..j]);
    if fs[j].hasFunction {
      assert before + Usable(fs[..j + 1]) == done + [fs[j]];
      assert (done + [fs[j]])[..|done|] == done;
    } else {
      assert Usable(fs[..j]) + [] == Usable(fs[..j]);
    }
  }

  /* ---- slots do not depend on the interleaving ---- */

  /** The fragments of one index, in order. */
  function Only(fs: seq<Fragment>, index: int): seq<Fragment> {
    if fs == [] then []
    else
      var f := fs[|fs| - 1];
      Only(fs[..|fs| - 1], index) + (if Index(f) == index then [f] else [])
  }

  function Gather(fs: seq<Fragment>): Slot {
    if fs == [] then EMPTY else Absorb(Gather(fs[..|fs| - 1]), fs[|fs| - 1])
  }

  /** A slot is the fold of the fragments of its index, wherever they were in the stream. */
  lemma {:induction false} SlotsByIndex(fs: seq<Fragment>, index: int)
    ensures index in Slots(fs) <==> Only(fs, index) != []
    ensures index in Slots(fs) ==> Slots(fs)[index] == Gather(Only(fs, index))
    decreases |fs|
  {
    if fs != [] {
      var before, f := fs[..|fs| - 1], fs[|fs| - 1];
      SlotsByIndex(before, index);
      var mine := Only(before, index);
      assert mine + [] == mine;
      assert (mine + [f])[..|mine|] == mine;
    }
  }

  /* ---- what a whole answer looks like ---- */

  /** A call as the provider means it; `None` arguments are absent. */
  datatype WireCall = WireCall(id: string, name: string, args: Option<string>)

  datatype Answer = Answer(content: string, calls: seq<WireCall>, finish: Option<string>, usage: Usage)

  /** How the same call is parsed when it is not streamed. */
  function ParseCall<J>(call: WireCall, loads: string -> Option<J>): ToolCall<J> {
    ToolCall(call.id, call.name,
             if call.args.None? then NoArguments
             else if loads(call.args.value).Some? then Loaded(loads(call.args.value).value)
             else Raw(call.args.value))
  }

  function ParseResponse<J>(answer: Answer, loads: string -> Option<J>): Response<J> {
    Response(answer.content,
             seq(|answer.calls|, i requires 0 <= i < |answer.calls| => ParseCall(answer.calls[i], loads)),
             Stop(answer.finish), answer.usage)
  }

  function ArgText(fs: seq<Fragment>): string {
    if fs == [] then "" else ArgText(fs[..|fs| - 1]) + fs[|fs| - 1].args
  }

  /** `fs` is one call cut in pieces: the id and the name each come at least once and never
      differ, the argument text is cut anywhere. */
  predicate Splits(fs: seq<Fragment>, call: WireCall) {
    fs != [] &&
    (forall f :: f in fs ==> f.id in {"", call.id} && f.name in {"", call.name}) &&
    (exists f :: f in fs && f.id == call.id) && (exists f :: f in fs && f.name == call.name) &&
    ArgText(fs) == (if call.args.Some? then call.args.value else "")
  }

  /** The fragments are those of `calls`, the k-th under index `at[k]`, interleaved freely. */
  ghost predicate Carries(fs: seq<Fragment>, calls: seq<WireCall>, at: seq<int>) {
    |at| == |calls| && Ascending(at) &&
    (forall k :: 0 <= k < |calls| ==> Splits(Only(fs, at[k]), calls[k])) &&
    (forall f :: f in fs ==> Index(f) in at)
  }

  /* ---- one call ---- */

  lemma {:induction false} GatheredId(fs: seq<Fragment>, id: string)
    requires forall f :: f in fs ==> f.id in {"", id}
    ensures Gather(fs).id == if exists f :: f in fs && f.id == id then id else ""
    decreases |fs|
  {
    if fs != [] {
      var before, f := fs[..|fs| - 1], fs[|fs| - 1];
      assert fs == before + [f];
      GatheredId(before, id);
      assert f in fs;
    }
  }

  lemma {:induction false} GatheredName(fs: seq<Fragment>, name: string)
    requires forall f :: f in fs ==> f.name in {"", name}
    ensures Gather(fs).name == if exists f :: f in fs && f.name == name then name else ""
    decreases |fs|
  {
    if fs != [] {
      var before, f := fs[..|fs| - 1], fs[|fs| - 1];
      assert fs == before + [f];
      GatheredName(before, name);
      assert f in fs;
    }
  }

  lemma {:induction false} GatheredArgs(fs: seq<Fragment>)
    ensures Join(Gather(fs).args) == ArgText(fs)
    decreases |fs|
  {
    if fs != [] {
      var before, f := fs[..|fs| - 1], fs[|fs| - 1];
      GatheredArgs(before);
      var args := Gather(before).args;
      JoinConcat(args, [f.args]);
      assert Join([f.args]) == f.args + Join([]);
      assert ArgText(before) + "" == ArgText(before);
    }
  }

  /** However it was cut, a call comes back whole; only empty argument text is read
      differently from an answer that is not streamed. */
  lemma CallComesBack<J>(fs: seq<Fragment>, call: WireCall, loads: string -> Option<J>)
    requires Splits(fs, call) && loads("") == None
    ensures FromSlot(Gather(fs), loads) ==
            if call.args == Some("") then ToolCall(call.id, call.name, NoArguments) else ParseCall(call, loads)
    ensures call.args == Some("") ==> ParseCall(call, loads).arguments == Raw("")
  {
    GatheredId(fs, call.id);
    GatheredName(fs, call.name);
    GatheredArgs(fs);
  }

  /* ---- the whole answer ---- */

  lemma {:induction false} OnlyElements(fs: seq<Fragment>, index: int)
    ensures forall f :: f in Only(fs, index) <==> f in fs && Index(f) == index
    decreases |fs|
  {
    if fs != [] {
      OnlyElements(fs[..|fs| - 1], index);
      assert fs == fs[..|fs| - 1] + [fs[|fs| - 1]];
    }
  }

  /** The slots in ascending order are the calls in order. */
  lemma KeysAreIndexes(fs: seq<Fragment>, calls: seq<WireCall>, at: seq<int>)
    requires Carries(fs, calls, at)
    ensures SortKeys(Slots(fs).Keys) == at
  {
    hide Slots, Only, SortKeys;
    var keys := Slots(fs).Keys;
    forall k | k in keys ensures k in Elements(at) {
      SlotsByIndex(fs, k);
      OnlyElements(fs, k);
      var f := Only(fs, k)[0];
      assert f in Only(fs, k);
    }
    forall k | k in Elements(at) ensures k in keys {
      var i :| 0 <= i < |at| && at[i] == k;
      assert Splits(Only(fs, at[i]), calls[i]);
      SlotsByIndex(fs, k);
    }
    assert Elements(at) == keys;
    AscendingIsUnique(SortKeys(keys), at);
  }

  lemma StreamedCall<J>(chunks: seq<Chunk>, calls: seq<WireCall>, at: seq<int>, loads: string -> Option<J>, k: nat)
    requires Carries(Fragments(chunks), calls, at) && loads("") == None && k < |calls|
    ensures |Streamed(chunks, loads).calls| == |calls|
    ensures Streamed(chunks, loads).calls[k] ==
            if calls[k].args == Some("") then ToolCall(calls[k].id, calls[k].name, NoArguments)
            else ParseCall(calls[k], loads)
  {
    hide Slots, Only, SortKeys, Splits, Gather, FromSlot, ParseCall;
    var fs := Fragments(chunks);
    KeysAreIndexes(fs, calls, at);
    KeysInSlots(Slots(fs));
    SlotsByIndex(fs, at[k]);
    assert at[k] in at;
    CallComesBack(Only(fs, at[k]), calls[k], loads);
  }

  /** For every cutting and every interleaving, the streamed answer is the answer that is
      not streamed, exactly when no call has empty argument text. */
  lemma StreamRebuildsAnswerIff<J>(chunks: seq<Chunk>, answer: Answer, at: seq<int>, loads: string -> Option<J>)
    requires Carries(Fragments(chunks), answer.calls, at) && loads("") == None
    requires Join(Deltas(chunks)) == answer.content && Finish(chunks) == answer.finish && Counters(chunks) == answer.usage
    ensures Streamed(chunks, loads) == ParseResponse(answer, loads) <==>
            forall k :: 0 <= k < |answer.calls| ==> answer.calls[k].args != Some("")
  {
    hide Carries, Fragments, Deltas, Join, Slots, SortKeys;
    var streamed, parsed := Streamed(chunks, loads), ParseResponse(answer, loads);
    SameLength(chunks, answer.calls, at, loads);
    forall k | 0 <= k < |answer.calls|
      ensures streamed.calls[k] == parsed.calls[k] <==> answer.calls[k].args != Some("")
    {
      StreamedCall(chunks, answer.calls, at, loads, k);
    }
    if forall k :: 0 <= k < |answer.calls| ==> answer.calls[k].args != Some("") {
      assert streamed.calls == parsed.calls;
    }
  }

  lemma SameLength<J>(chunks: seq<Chunk>, calls: seq<WireCall>, at: seq<int>, loads: string -> Option<J>)
    requires Carries(Fragments(chunks), calls, at)
    ensures |Streamed(chunks, loads).calls| == |calls|
  {
    KeysAreIndexes(Fragments(chunks), calls, at);
  }

  /* ---- one fragment per call ---- */

  /** Every call in one fragment, with an id of its own. */
  predicate WholeCalls(fs: seq<Fragment>) {
    (forall i :: 0 <= i < |fs| ==> fs[i].id != "") &&
    (forall i, j :: 0 <= i < j < |fs| ==> fs[i].id != fs[j].id)
  }

  function Indexes(fs: seq<Fragment>): seq<int> { seq(|fs|, i requires 0 <= i < |fs| => Index(fs[i])) }

  lemma {:induction false} GatheredIdIsThere(fs: seq<Fragment>)
    ensures Gather(fs).id != "" ==> exists f :: f in fs && f.id == Gather(fs).id
    decreases |fs|
  {
    if fs != [] {
      GatheredIdIsThere(fs[..|fs| - 1]);
      assert fs[|fs| - 1] in fs;
    }
  }

  lemma {:induction false} OnlyOne(fs: seq<Fragment>, k: nat)
    requires k < |fs| && forall i :: 0 <= i < |fs| && i != k ==> Index(fs[i]) != Index(fs[k])
    ensures Only(fs, Index(fs[k])) == [fs[k]]
    decreases |fs|
  {
    var before := fs[..|fs| - 1];
    if k == |fs| - 1 {
      OnlyNone(before, Index(fs[k]));
    } else {
      OnlyOne(before, k);
    }
  }

  lemma {:induction false} OnlyNone(fs: seq<Fragment>, index: int)
    requires forall i :: 0 <= i < |fs| ==> Index(fs[i]) != index
    ensures Only(fs, index) == []
    decreases |fs|
  {
    if fs != [] { OnlyNone(fs[..|fs| - 1], index); }
  }

  /** The rebuilt calls, in the order in which they are reported. */
  function Rebuilt(fs: seq<Fragment>): seq<Slot> {
    KeysInSlots(Slots(fs));
    var keys := SortKeys(Slots(fs).Keys);
    seq(|keys|, i requires 0 <= i < |keys| => Slots(fs)[keys[i]])
  }

  /** The calls as they were sent. */
  function Whole(fs: seq<Fragment>): seq<Slot> { seq(|fs|, i requires 0 <= i < |fs| => Absorb(EMPTY, fs[i])) }

  lemma AscendingKeepsCalls(fs: seq<Fragment>)
    requires Ascending(Indexes(fs))
    ensures Rebuilt(fs) == Whole(fs)
  {
    hide Slots, Only, SortKeys;
    var at := Indexes(fs);
    var keys := Slots(fs).Keys;
    forall k | 0 <= k < |fs| ensures at[k] in keys && Slots(fs)[at[k]] == Absorb(EMPTY, fs[k]) {
      forall i | 0 <= i < |fs| && i != k ensures Index(fs[i]) != Index(fs[k]) {
        assert at[i] != at[k];
      }
      OnlyOne(fs, k);
      SlotsByIndex(fs, at[k]);
      assert [fs[k]][..0] == [];
    }
    forall k | k in keys ensures k in Elements(at) {
      SlotsByIndex(fs, k);
      OnlyElements(fs, k);
      var f := Only(fs, k)[0];
      assert f in Only(fs, k);
      var i :| 0 <= i < |fs| && fs[i] == f;
      assert at[i] == k;
    }
    assert Elements(at) == keys;
    AscendingIsUnique(SortKeys(keys), at);
  }

  lemma KeptCallsAscend(fs: seq<Fragment>)
    requires WholeCalls(fs) && Rebuilt(fs) == Whole(fs)
    ensures Ascending(Indexes(fs))
  {
    hide Slots, Only, SortKeys;
    var keys := SortKeys(Slots(fs).Keys);
    KeysInSlots(Slots(fs));
    assert |keys| == |Rebuilt(fs)| == |fs|;
    forall k | 0 <= k < |fs| ensures Index(fs[k]) == keys[k] {
      assert keys[k] in keys;
      assert Rebuilt(fs)[k] == Whole(fs)[k];
      SlotsByIndex(fs, keys[k]);
      GatheredIdIsThere(Only(fs, keys[k]));
      var f :| f in Only(fs, keys[k]) && f.id == fs[k].id;
      OnlyElements(fs, keys[k]);
      var i :| 0 <= i < |fs| && fs[i] == f;
      assert i == k;
    }
  }

  /** Calls that arrive whole come back, each with its id, name and arguments and all in
      order, exactly when their indexes ascend, a missing index counting as zero. */
  lemma WholeCallsComeBackIff(fs: seq<Fragment>)
    requires WholeCalls(fs)
    ensures Rebuilt(fs) == Whole(fs) <==> Ascending(Indexes(fs))
  {
    if Ascending(Indexes(fs)) { AscendingKeepsCalls(fs); }
    if Rebuilt(fs) == Whole(fs) { KeptCallsAscend(fs); }
  }

  function Unindexed(): seq<Fragment> {
    [Fragment(None, true, "a", "read", "1"), Fragment(None, true, "b", "write", "2")]
  }

  /** Two whole calls without an index are merged into one. */
  lemma MissingIndexesMerge()
    ensures WholeCalls(Unindexed()) && Rebuilt(Unindexed()) != Whole(Unindexed())
  {
    hide Rebuilt, Whole;
    assert Indexes(Unindexed())[0] == Indexes(Unindexed())[1];
    WholeCallsComeBackIff(Unindexed());
  }

  /* ---- empty argument text ---- */

  function EmptyCallChunk(): Chunk {
    Chunk(true, "", [Fragment(Some(0), true, "a", "read", "")], "", map[])
  }

  lemma EmptyCallCarried()
    ensures Fragments([EmptyCallChunk()]) == EmptyCallChunk().fragments
    ensures Carries(EmptyCallChunk().fragments, [WireCall("a", "read", Some(""))], [0])
    ensures Deltas([EmptyCallChunk()]) == [] && Finish([EmptyCallChunk()]) == None && Counters([EmptyCallChunk()]) == map[]
  {
    var c := EmptyCallChunk();
    var f := c.fragments[0];
    assert [c][..0] == [] && [f][..0] == [];
    assert Usable([f]) == [] + [f] && Fragments([c]) == [] + Usable([f]);
    assert Only([f], 0) == [] + [f];
    assert ArgText([f]) == ArgText([]) + "";
    assert f in [f];
  }

  /** A call with empty argument text: no arguments when streamed, raw text when not. */
  lemma EmptyArgumentsDiffer<J>(loads: string -> Option<J>)
    requires loads("") == None
    ensures var answer := Answer("", [WireCall("a", "read", Some(""))], None, map[]);
            Streamed([EmptyCallChunk()], loads) != ParseResponse(answer, loads)
  {
    hide Carries, Fragments, Deltas, Finish, Counters, Slots, SortKeys;
    EmptyCallCarried();
    var answer := Answer("", [WireCall("a", "read", Some(""))], None, map[]);
    StreamRebuildsAnswerIff([EmptyCallChunk()], answer, [0], loads);
    assert answer.calls[0].args == Some("");
  }

  /* ---- token counters ---- */

  /** When only the last chunk reports counters, as providers do at the end of a stream,
      they are kept exactly when that chunk has a choice or reports nothing. */
  lemma FinalCountersKeptIff<J>(chunks: seq<Chunk>, last: Chunk, loads: string -> Option<J>)
    requires forall c :: c in chunks ==> c.usage == map[]
    ensures Streamed(chunks + [last], loads).usage == last.usage <==> last.hasChoice || last.usage == map[]
  {
    hide Slots, SortKeys, Fragments, Deltas, Finish, FromSlot, Counters;
    LastCounters(chunks, last);
  }

  lemma LastCounters(chunks: seq<Chunk>, last: Chunk)
    requires forall c :: c in chunks ==> c.usage == map[]
    ensures Counters(chunks + [last]) == if last.hasChoice then last.usage else map[]
  {
    NoCounters(chunks);
    assert (chunks + [last])[..|chunks|] == chunks;
    assert map[] + last.usage == last.usage;
  }

  lemma {:induction false} NoCounters(chunks: seq<Chunk>)
    requires forall c :: c in chunks ==> c.usage == map[]
    ensures Counters(chunks) == map[]
    decreases |chunks|
  {
    if chunks != [] {
      NoCounters(chunks[..|chunks| - 1]);
      assert chunks[|chunks| - 1] in chunks;
    }
  }

  /** A final chunk with counters and no choice loses them. */
  lemma CountersWithoutChoiceAreLost<J>(loads: string -> Option<J>)
    ensures Streamed([Chunk(false, "", [], "", map["output_tokens" := 7])], loads).usage == map[]
  {
    var c := Chunk(false, "", [], "", map["output_tokens" := 7]);
    assert [c][..0] == [];
    assert Counters([c]) == Counters([]);
  }

  /* ---- stop reasons, missing indexes and what is skipped ---- */

  lemma StopReasons(other: string)
    ensures MapStop("stop") == "end_turn" && MapStop("length") == "max_tokens" && MapStop("tool_calls") == "tool_use"
    ensures MapStop("function_call") == "tool_use" && MapStop("content_filter") == "end_turn"
    ensures other !in {"stop", "length", "tool_calls", "function_call", "content_filter"} ==> MapStop(other) == other
  {}

  /** A fragment without an index belongs to the call at index 0. */
  lemma {:induction false} MissingIndexIsZero(fs: seq<Fragment>)
    ensures Slots(fs) == Slots(Numbered(fs))
    decreases |fs|
  {
    hide Absorb;
    if fs != [] {
      MissingIndexIsZero(fs[..|fs| - 1]);
      assert Numbered(fs)[..|fs| - 1] == Numbered(fs[..|fs| - 1]);
      SameWhenNumbered(fs[|fs| - 1], if Index(fs[|fs| - 1]) in Slots(fs[..|fs| - 1]) then Slots(fs[..|fs| - 1])[Index(fs[|fs| - 1])] else EMPTY);
    }
  }

  function Number(f: Fragment): Fragment { if f.index.None? then f.(index := Some(0)) else f }

  function Numbered(fs: seq<Fragment>): seq<Fragment> {
    seq(|fs|, i requires 0 <= i < |fs| => Number(fs[i]))
  }

  lemma SameWhenNumbered(f: Fragment, slot: Slot)
    ensures Index(Number(f)) == Index(f) && Absorb(slot, Number(f)) == Absorb(slot, f)
  {}

  /** The chunks that have a choice, with the entries that name a function. */
  function Relevant(chunks: seq<Chunk>): seq<Chunk> {
    if chunks == [] then []
    else
      var c := chunks[|chunks| - 1];
      Relevant(chunks[..|chunks| - 1]) + (if c.hasChoice then [c.(fragments := Usable(c.fragments))] else [])
  }

  /** Chunks without a choice and entries without a function change nothing. */
  lemma {:induction false} OnlyRelevantCounts<J>(chunks: seq<Chunk>, loads: string -> Option<J>)
    ensures Streamed(chunks, loads) == Streamed(Relevant(chunks), loads) && AllRelevant(Relevant(chunks))
  {
    hide Slots, SortKeys, FromSlot, Join, MapStop, AllRelevant;
    RelevantKeeps(chunks);
    RelevantIsRelevant(chunks);
  }

  lemma {:induction false} RelevantKeeps(chunks: seq<Chunk>)
    ensures Fragments(Relevant(chunks)) == Fragments(chunks) && Deltas(Relevant(chunks)) == Deltas(chunks)
    ensures Finish(Relevant(chunks)) == Finish(chunks) && Counters(Relevant(chunks)) == Counters(chunks)
    decreases |chunks|
  {
    if chunks != [] {
      var before, c := chunks[..|chunks| - 1], chunks[|chunks| - 1];
      RelevantKeeps(before);
      if c.hasChoice {
        var kept := Relevant(before);
        var d := c.(fragments := Usable(c.fragments));
        assert (kept + [d])[..|kept|] == kept;
        UsableTwice(c.fragments);
      } else {
        assert Relevant(before) + [] == Relevant(before);
        assert Fragments(before) + [] == Fragments(before) && Deltas(before) + [] == Deltas(before);
      }
    }
  }

  lemma {:induction false} UsableTwice(fs: seq<Fragment>)
    ensures Usable(Usable(fs)) == Usable(fs)
    decreases |fs|
  {
    if fs != [] {
      var before, f := fs[..|fs| - 1], fs[|fs| - 1];
      UsableTwice(before);
      var kept := Usable(before);
      if f.hasFunction {
        assert (kept + [f])[..|kept|] == kept;
      } else {
        assert kept + [] == kept;
      }
    }
  }

  predicate AllRelevant(chunks: seq<Chunk>) {
    forall i :: 0 <= i < |chunks| ==>
      chunks[i].hasChoice && forall k :: 0 <= k < |chunks[i].fragments| ==> chunks[i].fragments[k].hasFunction
  }

  function ChunkTexts(chunks: seq<Chunk>): seq<string> { seq(|chunks|, i requires 0 <= i < |chunks| => chunks[i].text) }

  function ChunkEntries(chunks: seq<Chunk>): seq<seq<Fragment>> {
    seq(|chunks|, i requires 0 <= i < |chunks| => chunks[i].fragments)
  }

  lemma {:induction false} UsableHaveFunctions(fs: seq<Fragment>)
    ensures forall k :: 0 <= k < |Usable(fs)| ==> Usable(fs)[k].hasFunction
    decreases |fs|
  {
    if fs != [] { UsableHaveFunctions(fs[..|fs| - 1]); }
  }

  lemma {:induction false} RelevantIsRelevant(chunks: seq<Chunk>)
    ensures AllRelevant(Relevant(chunks))
    decreases |chunks|
  {
    hide Usable;
    if chunks != [] {
      RelevantIsRelevant(chunks[..|chunks| - 1]);
      UsableHaveFunctions(chunks[|chunks| - 1].fragments);
    }
  }

  /** No relevant text is lost or reordered. */
  lemma {:induction false} TextsAreCarried(chunks: seq<Chunk>)
    requires AllRelevant(chunks)
    ensures Join(Deltas(chunks)) == Join(ChunkTexts(chunks))
    decreases |chunks|
  {
    hide Join;
    if chunks != [] {
      var before, c := chunks[..|chunks| - 1], chunks[|chunks| - 1];
      TextsAreCarried(before);
      assert ChunkTexts(chunks) == ChunkTexts(before) + [c.text];
      JoinConcat(ChunkTexts(before), [c.text]);
      JoinConcat(Deltas(before), [c.text]);
      JoinOne(c.text);
      assert Deltas(before) + [] == Deltas(before) && Join(ChunkTexts(before)) + "" == Join(ChunkTexts(before));
    } else {
      assert ChunkTexts(chunks) == Deltas(chunks);
    }
  }

  lemma JoinOne(s: string)
    ensures Join([s]) == s
  {
    assert Join([s]) == s + Join([]);
  }

  /** No relevant entry is lost or reordered. */
  lemma {:induction false} EntriesAreCarried(chunks: seq<Chunk>)
    requires AllRelevant(chunks)
    ensures Fragments(chunks) == Flatten(ChunkEntries(chunks))
    decreases |chunks|
  {
    hide Usable;
    if chunks != [] {
      var n := |chunks| - 1;
      EntriesAreCarried(chunks[..n]);
      var all := ChunkEntries(chunks);
      assert all[..n] == ChunkEntries(chunks[..n]) && all[n] == chunks[n].fragments;
      AllUsable(chunks[n].fragments);
    }
  }

  function Flatten(parts: seq<seq<Fragment>>): seq<Fragment> {
    if parts == [] then [] else Flatten(parts[..|parts| - 1]) + parts[|parts| - 1]
  }

  lemma {:induction false} AllUsable(fs: seq<Fragment>)
    requires forall k :: 0 <= k < |fs| ==> fs[k].hasFunction
    ensures Usable(fs) == fs
    decreases |fs|
  {
    if fs != [] { AllUsable(fs[..|fs| - 1]); }
  }
}
