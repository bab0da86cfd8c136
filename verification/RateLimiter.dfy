/** The per-client sliding-window limiter and its Retry-After answer (section 4 of RFC 6585,
    section 10.2.3 of RFC 9110). */
module RateLimiter {
  import opened Options

  const WINDOW: real := 60.0

  /** Drop the times that have left the window from the front of a client's queue. */
  function Prune(times: seq<real>, now: real): seq<real> {
    if times != [] && times[0] <= now - WINDOW then Prune(times[1..], now) else times
  }

  function Wait(oldest: real, now: real): int {
    var whole := (WINDOW - (now - oldest)).Floor + 1;
    if whole < 1 then 1 else whole
  }

  function Queue(queues: map<string, seq<real>>, client: string): seq<real> {
    if client in queues then queues[client] else []
  }

  /** The new queues, and the seconds to wait when the request is rejected. */
  function Serve(queues: map<string, seq<real>>, limit: nat, client: string, now: real): (map<string, seq<real>>, Option<int>)
    requires limit > 0
  {
    var times := Prune(Queue(queues, client), now);
    if |times| >= limit then (queues[client := times], Some(Wait(times[0], now)))
    else (queues[client := times + [now]], None)
  }

  class Limiter {
    const limit: Option<nat>
    var queues: map<string, seq<real>>

    ghost predicate Valid() { limit.Some? ==> limit.value > 0 }

    constructor (limit: Option<nat>)
      requires limit.Some? ==> limit.value > 0
      ensures Valid() && this.limit == limit && queues == map[]
    {
      this.limit := limit;
      queues := map[];
    }

    /** One request: without a limit everything is admitted and nothing recorded. */
    method AllowRequest(client: string, now: real) returns (admitted: bool, retryAfter: int)
      requires Valid()
      modifies this
      ensures limit.None? ==> admitted && queues == old(queues)
      ensures limit.Some? ==>
                var (after, rejection) := Serve(old(queues), limit.value, client, now);
                queues == after && admitted == rejection.None? &&
                retryAfter == (if admitted then 0 else rejection.value)
      ensures admitted ==> retryAfter == 0
    {
      if limit.None? { return true, 0; }
      var times := if client in queues then queues[client] else [];
      while times != [] && times[0] <= now - WINDOW
        invariant Prune(times, now) == Prune(Queue(old(queues), client), now)
        invariant queues == old(queues)
        decreases |times|
      {
        times := times[1..];
      }
      queues := queues[client := times];
      if |times| >= limit.value {
        var whole := (WINDOW - (now - times[0])).Floor + 1;
        return false, if whole < 1 then 1 else whole;
      }
      queues := queues[client := times + [now]];
      return true, 0;
    }
  }

  /* ---- whole runs ---- */

  datatype Request = Request(client: string, now: real)

  predicate InOrder(requests: seq<Request>) {
    forall i, j :: 0 <= i < j < |requests| ==> requests[i].now <= requests[j].now
  }

  function Queues(limit: nat, requests: seq<Request>): map<string, seq<real>>
    requires limit > 0
  {
    if requests == [] then map[]
    else
      var last := requests[|requests| - 1];
      Serve(Queues(limit, requests[..|requests| - 1]), limit, last.client, last.now).0
  }

  /** The answer to `next` after `requests`. */
  function Verdict(limit: nat, requests: seq<Request>, next: Request): Option<int>
    requires limit > 0
  {
    Serve(Queues(limit, requests), limit, next.client, next.now).1
  }

  /** Every instant at which `client` was admitted, in order. */
  function Admitted(limit: nat, requests: seq<Request>, client: string): seq<real>
    requires limit > 0
  {
    if requests == [] then []
    else
      var before := requests[..|requests| - 1];
      var last := requests[|requests| - 1];
      Admitted(limit, before, client) +
      (if last.client == client && Verdict(limit, before, last).None? then [last.now] else [])
  }

  function Count(times: seq<real>, window: real -> bool): nat {
    if times == [] then 0 else Count(times[1..], window) + (if window(times[0]) then 1 else 0)
  }

  /* ---- queues against the admitted instants ---- */

  predicate Sorted(times: seq<real>) { forall i, j :: 0 <= i < j < |times| ==> times[i] <= times[j] }

  predicate Spaced(times: seq<real>, limit: nat) {
    forall i, j :: 0 <= i < j < |times| && j - i >= limit ==> times[i] + WINDOW <= times[j]
  }

  /** `queue` is what is left of `times` when instants that left the window are forgotten. */
  predicate Tracks(queue: seq<real>, times: seq<real>, limit: nat, clock: real) {
    |queue| <= limit && |queue| <= |times| && times[|times| - |queue|..] == queue &&
    (forall i :: 0 <= i < |times| - |queue| ==> times[i] <= clock - WINDOW) &&
    (forall i :: 0 <= i < |times| ==> times[i] <= clock) &&
    Sorted(times) && Spaced(times, limit)
  }

  lemma {:induction false} PruneTracks(queue: seq<real>, times: seq<real>, limit: nat, clock: real, now: real)
    requires Tracks(queue, times, limit, clock) && clock <= now
    ensures Tracks(Prune(queue, now), times, limit, now)
    ensures forall i :: 0 <= i < |Prune(queue, now)| ==> Prune(queue, now)[i] > now - WINDOW
    decreases |queue|
  {
    hide Spaced;
    if queue != [] && queue[0] <= now - WINDOW {
      assert times[|times| - |queue[1..]|..] == queue[1..];
      assert times[|times| - |queue|] == queue[0];
      PruneTracks(queue[1..], times, limit, now, now);
    } else if queue != [] {
      var base := |times| - |queue|;
      forall i | 0 <= i < |queue| ensures queue[i] > now - WINDOW {
        assert queue[i] == times[base + i] && queue[0] == times[base];
      }
    }
  }

  lemma AdmitTracks(queue: seq<real>, times: seq<real>, limit: nat, now: real)
    requires Tracks(queue, times, limit, now) && |queue| < limit
    ensures Tracks(queue + [now], times + [now], limit, now)
  {
    var all := times + [now];
    assert all[|all| - |queue + [now]|..] == queue + [now];
    forall i, j | 0 <= i < j < |all| && j - i >= limit ensures all[i] + WINDOW <= all[j] {
      if j < |times| {
        assert times[i] + WINDOW <= times[j];
      } else {
        assert i < |times| - |queue|;
      }
    }
  }

  lemma {:induction false} RunTracks(limit: nat, requests: seq<Request>, client: string, clock: real)
    requires limit > 0 && InOrder(requests)
    requires forall i :: 0 <= i < |requests| ==> requests[i].now <= clock
    ensures Tracks(Queue(Queues(limit, requests), client), Admitted(limit, requests, client), limit, clock)
    decreases |requests|
  {
    hide Tracks, Prune;
    if requests == [] {
      EmptyTracks(limit, clock);
    } else {
      var before := requests[..|requests| - 1];
      var last := requests[|requests| - 1];
      RunTracks(limit, before, client, last.now);
      var queue := Queue(Queues(limit, before), client);
      var times := Admitted(limit, before, client);
      PruneTracks(queue, times, limit, last.now, last.now);
      assert times + [] == times;
      if last.client != client {
        Later(queue, times, limit, last.now, clock);
      } else if Verdict(limit, before, last).Some? {
        Later(Prune(queue, last.now), times, limit, last.now, clock);
      } else {
        AdmitTracks(Prune(queue, last.now), times, limit, last.now);
        Later(Prune(queue, last.now) + [last.now], times + [last.now], limit, last.now, clock);
      }
    }
  }

  lemma EmptyTracks(limit: nat, clock: real)
    ensures Tracks([], [], limit, clock)
  {}

  lemma Later(queue: seq<real>, times: seq<real>, limit: nat, clock: real, later: real)
    requires Tracks(queue, times, limit, clock) && clock <= later
    ensures Tracks(queue, times, limit, later)
  {
    hide Sorted, Spaced;
  }

  /* ---- counting ---- */

  lemma {:induction false} CountConcat(a: seq<real>, b: seq<real>, window: real -> bool)
    ensures Count(a + b, window) == Count(a, window) + Count(b, window)
  {
    if a == [] {
      assert a + b == b;
    } else {
      CountConcat(a[1..], b, window);
      assert (a + b)[1..] == a[1..] + b;
    }
  }

  lemma {:induction false} CountNone(times: seq<real>, window: real -> bool)
    requires forall i :: 0 <= i < |times| ==> !window(times[i])
    ensures Count(times, window) == 0
  {
    if times != [] { CountNone(times[1..], window); }
  }

  lemma {:induction false} CountAll(times: seq<real>, window: real -> bool)
    ensures Count(times, window) <= |times|
    ensures (forall i :: 0 <= i < |times| ==> window(times[i])) ==> Count(times, window) == |times|
  {
    if times != [] { CountAll(times[1..], window); }
  }

  /** When the last instant is in the window, only the last `limit` can be. */
  lemma RecentCount(times: seq<real>, limit: nat, window: real -> bool)
    requires 0 < limit < |times| && Spaced(times, limit) && window(times[|times| - 1])
    requires forall x, y :: window(x) && window(y) ==> y - x < WINDOW
    ensures Count(times, window) <= limit
  {
    hide Count;
    var n := |times|;
    var early, late := times[..n - limit], times[n - limit..];
    forall i | 0 <= i < |early| ensures !window(early[i]) {
      assert times[i] + WINDOW <= times[n - 1];
    }
    CountNone(early, window);
    CountAll(late, window);
    CountConcat(early, late, window);
    assert times == early + late;
  }

  lemma {:induction false} SpacedCount(times: seq<real>, limit: nat, window: real -> bool)
    requires limit > 0 && Spaced(times, limit)
    requires forall x, y :: window(x) && window(y) ==> y - x < WINDOW
    ensures Count(times, window) <= limit
    decreases |times|
  {
    CountAll(times, window);
    if |times| > limit {
      var last := times[|times| - 1];
      if window(last) {
        RecentCount(times, limit, window);
      } else {
        SpacedCount(times[..|times| - 1], limit, window);
        CountConcat(times[..|times| - 1], [last], window);
        CountNone([last], window);
        assert times == times[..|times| - 1] + [last];
      }
    }
  }

  /** The sixty seconds up to `now`. */
  function Recent(now: real): real -> bool { t => now - 60.0 < t <= now }

  /** A pruned queue holds exactly the recent admissions. */
  lemma CountTracked(queue: seq<real>, times: seq<real>, limit: nat, now: real)
    requires Tracks(queue, times, limit, now)
    requires forall i :: 0 <= i < |queue| ==> queue[i] > now - WINDOW
    ensures Count(times, Recent(now)) == |queue|
  {
    hide Count, Spaced, Sorted;
    var gone := times[..|times| - |queue|];
    assert times == gone + queue;
    forall i | 0 <= i < |queue| ensures Recent(now)(queue[i]) {
      assert queue[i] == times[|gone| + i];
    }
    CountNone(gone, Recent(now));
    CountAll(queue, Recent(now));
    CountConcat(gone, queue, Recent(now));
  }

  /* ---- the theorems ---- */

  /** In every run, no window whose instants lie less than sixty seconds apart (half-open at
      either end) holds more than `limit` admitted requests of one client. */
  lemma AtMostLimitPerWindow(limit: nat, requests: seq<Request>, client: string, window: real -> bool)
    requires limit > 0 && InOrder(requests)
    requires forall x, y :: window(x) && window(y) ==> y - x < 60.0
    ensures Count(Admitted(limit, requests, client), window) <= limit
  {
    hide Spaced, Sorted, Count;
    if requests == [] {
      CountNone([], window);
    } else {
      RunTracks(limit, requests, client, requests[|requests| - 1].now);
      SpacedCount(Admitted(limit, requests, client), limit, window);
    }
  }

  /** A request is admitted exactly when fewer than `limit` requests of its client were
      admitted during the sixty seconds before it. */
  lemma AdmittedIffRoom(limit: nat, requests: seq<Request>, next: Request)
    requires limit > 0 && InOrder(requests + [next])
    ensures Verdict(limit, requests, next).None? <==>
            Count(Admitted(limit, requests, next.client), Recent(next.now)) < limit
  {
    hide Tracks, Prune, Count;
    PrefixInOrder(requests, next);
    RunTracks(limit, requests, next.client, next.now);
    var queue := Queue(Queues(limit, requests), next.client);
    var times := Admitted(limit, requests, next.client);
    PruneTracks(queue, times, limit, next.now, next.now);
    CountTracked(Prune(queue, next.now), times, limit, next.now);
  }

  lemma PrefixInOrder(requests: seq<Request>, next: Request)
    requires InOrder(requests + [next])
    ensures InOrder(requests)
    ensures forall i :: 0 <= i < |requests| ==> requests[i].now <= next.now
  {
    var all := requests + [next];
    assert forall i :: 0 <= i < |requests| ==> all[i] == requests[i];
    assert all[|requests|] == next;
  }

  /** Requests of other clients leave a queue alone. */
  lemma {:induction false} OthersLeaveQueue(limit: nat, requests: seq<Request>, others: seq<Request>, client: string)
    requires limit > 0 && forall i :: 0 <= i < |others| ==> others[i].client != client
    ensures Queue(Queues(limit, requests + others), client) == Queue(Queues(limit, requests), client)
    decreases |others|
  {
    hide Prune;
    if others == [] {
      assert requests + others == requests;
    } else {
      var all := requests + others;
      assert all[..|all| - 1] == requests + others[..|others| - 1];
      OthersLeaveQueue(limit, requests, others[..|others| - 1], client);
    }
  }

  /** A rejected client that makes no other request is admitted once it has waited the
      advertised time, and is still rejected a full second and more before it. */
  lemma RetryAfterIsRight(limit: nat, requests: seq<Request>, rejected: Request, others: seq<Request>, again: Request)
    requires limit > 0 && InOrder(requests + [rejected] + others + [again])
    requires Verdict(limit, requests, rejected).Some?
    requires forall i :: 0 <= i < |others| ==> others[i].client != rejected.client
    requires again.client == rejected.client
    ensures var wait := Verdict(limit, requests, rejected).value;
            var verdict := Verdict(limit, requests + [rejected] + others, again);
            wait >= 1 &&
            (again.now >= rejected.now + wait as real ==> verdict.None?) &&
            (again.now < rejected.now + (wait - 1) as real ==> verdict.Some?)
  {
    hide Prune, Tracks, InOrder, Queues;
    var asked := requests + [rejected];
    PrefixInOrder(asked + others, again);
    PrefixOfOrder(asked, others);
    PrefixInOrder(requests, rejected);
    RunTracks(limit, requests, rejected.client, rejected.now);
    var times := Admitted(limit, requests, rejected.client);
    PruneTracks(Queue(Queues(limit, requests), rejected.client), times, limit, rejected.now, rejected.now);
    var queue := Prune(Queue(Queues(limit, requests), rejected.client), rejected.now);
    QueueAfterRejection(limit, requests, rejected);
    OthersLeaveQueue(limit, asked, others, rejected.client);
    assert rejected.now <= again.now by { assert (asked + others)[|requests|] == rejected; }
    FullQueue(queue, times, limit, rejected.now, again.now);
  }

  lemma QueueAfterRejection(limit: nat, requests: seq<Request>, rejected: Request)
    requires limit > 0 && Verdict(limit, requests, rejected).Some?
    ensures Queue(Queues(limit, requests + [rejected]), rejected.client) ==
            Prune(Queue(Queues(limit, requests), rejected.client), rejected.now)
  {
    hide Prune;
    assert (requests + [rejected])[..|requests|] == requests;
  }

  lemma PrefixOfOrder(a: seq<Request>, b: seq<Request>)
    requires InOrder(a + b)
    ensures InOrder(a)
  {
    assert forall i :: 0 <= i < |a| ==> (a + b)[i] == a[i];
  }

  /** A full queue has room again exactly when its oldest instant leaves the window. */
  lemma FullQueue(queue: seq<real>, times: seq<real>, limit: nat, clock: real, now: real)
    requires limit > 0 && Tracks(queue, times, limit, clock) && clock <= now && |queue| >= limit
    ensures |Prune(queue, now)| < limit <==> queue[0] <= now - WINDOW
  {
    if queue[0] <= now - WINDOW { PruneShrinks(queue[1..], now); }
  }

  lemma {:induction false} PruneShrinks(queue: seq<real>, now: real)
    ensures |Prune(queue, now)| <= |queue|
  {
    if queue != [] && queue[0] <= now - WINDOW { PruneShrinks(queue[1..], now); }
  }

  /* ---- exactly which windows respect the limit ---- */

  function Copies<T>(x: T, n: nat): seq<T> { seq(n, _ => x) }

  lemma {:induction false} BurstAdmitted(limit: nat, client: string, x: real, n: nat)
    requires n <= limit && limit > 0
    ensures Admitted(limit, Copies(Request(client, x), n), client) == Copies(x, n)
  {
    hide Verdict, Count;
    if n > 0 {
      var request := Request(client, x);
      var before := Copies(request, n - 1);
      BurstAdmitted(limit, client, x, n - 1);
      assert Copies(request, n) == before + [request];
      assert Copies(request, n)[..n - 1] == before;
      AdmittedIffRoom(limit, before, request);
      CountAll(Copies(x, n - 1), Recent(x));
      assert Copies(x, n) == Copies(x, n - 1) + [x];
    }
  }

  /** The limit spent at one instant, and one request a full window later. */
  function SpreadRun(limit: nat, client: string, x: real, y: real): seq<Request> {
    Copies(Request(client, x), limit) + [Request(client, y)]
  }

  lemma SpreadRunAdmitted(limit: nat, client: string, x: real, y: real)
    requires limit > 0 && y - x >= WINDOW
    ensures InOrder(SpreadRun(limit, client, x, y))
    ensures Admitted(limit, SpreadRun(limit, client, x, y), client) == Copies(x, limit) + [y]
  {
    hide Verdict, Count;
    var burst, late := Copies(Request(client, x), limit), Request(client, y);
    BurstAdmitted(limit, client, x, limit);
    assert SpreadRun(limit, client, x, y)[..limit] == burst;
    AdmittedIffRoom(limit, burst, late);
    CountNone(Copies(x, limit), Recent(y));
  }

  lemma SpreadRunExceeds(limit: nat, client: string, x: real, y: real, window: real -> bool)
    requires limit > 0 && y - x >= WINDOW && window(x) && window(y)
    ensures Count(Admitted(limit, SpreadRun(limit, client, x, y), client), window) == limit + 1
  {
    hide Count, Admitted;
    SpreadRunAdmitted(limit, client, x, y);
    CountAll(Copies(x, limit), window);
    CountAll([y], window);
    CountConcat(Copies(x, limit), [y], window);
  }

  /** A set of instants respects every limit in every run exactly when any two of its
      instants lie less than sixty seconds apart: half-open windows do, closed ones do not. */
  lemma WindowIsRespectedIff(limit: nat, client: string, window: real -> bool)
    requires limit > 0
    ensures (forall requests :: InOrder(requests) ==> Count(Admitted(limit, requests, client), window) <= limit) <==>
            (forall x, y :: window(x) && window(y) ==> y - x < 60.0)
  {
    hide Count, Admitted, InOrder;
    if forall x, y :: window(x) && window(y) ==> y - x < WINDOW {
      forall requests | InOrder(requests) ensures Count(Admitted(limit, requests, client), window) <= limit {
        AtMostLimitPerWindow(limit, requests, client, window);
      }
    } else {
      var x, y :| window(x) && window(y) && y - x >= WINDOW;
      SpreadRunAdmitted(limit, client, x, y);
      SpreadRunExceeds(limit, client, x, y, window);
    }
  }

  /** With a limit of one, requests at the two ends of a closed sixty-second window are
      both admitted. */
  lemma ClosedWindowMayHoldMore()
    ensures InOrder([Request("a", 0.0), Request("a", 60.0)])
    ensures Admitted(1, [Request("a", 0.0), Request("a", 60.0)], "a") == [0.0, 60.0]
  {
    hide Admitted;
    SpreadRunAdmitted(1, "a", 0.0, 60.0);
    assert SpreadRun(1, "a", 0.0, 60.0) == [Request("a", 0.0), Request("a", 60.0)];
    assert Copies(0.0, 1) + [60.0] == [0.0, 60.0];
  }
}
