/** One call of `send_stats`: the 30-second rate guard, the POST, the classification of
    its reply and the retry after HTTP 429, which re-enters the guarded send.

    The network is a script: the i-th element of `responses` is the reply to the i-th
    request that the call issues. Replies arrive at once; only the back-off after a 429
    moves the clock. */
module Delivery {
  import opened Clock
  import opened ErrorTable

  /** The minimum spacing, in seconds, between a successful request and the next one. */
  const MinSpacing := 30

  /** `last_request_time` before any request has succeeded. It is also a real instant (the
      epoch), and a success at that instant leaves the field looking unset. */
  const Unset := 0

  /** How a POST ended. */
  datatype Response =
    | Status(code: int)   // the server answered with this status code
    | RequestError        // httpx.RequestError: connection, timeout, DNS, ...
    | OtherError          // any other exception raised while sending

  /** One POST the reporter issued: when, and whether the server answered 200. */
  datatype Request = Request(time: int, succeeded: bool)

  /** What a call of `send_stats` ended with (the level and cause of its last log line). */
  datatype Outcome =
    | Skipped(wait: int)                      // the guard refused; `wait` seconds remain
    | Delivered                               // HTTP 200
    | Rejected(code: int, message: Message)   // any other code but 429: logged, no retry
    | TransportFailed                         // httpx.RequestError: logged, no retry
    | Failed                                  // another exception: logged, no retry
    | Unanswered                              // the reply lies beyond the script

  /** A call's trace: the requests it issued, the new `last_request_time`, the clock when it
      returns and how it ended. */
  datatype Run = Run(requests: seq<Request>, last: int, endTime: int, outcome: Outcome)

  /** The rate guard. */
  predicate MaySend(last: int, now: int)
  {
    last == Unset || now - last >= MinSpacing
  }

  /** The wait reported when the guard refuses: exactly the time until it opens. */
  function RemainingWait(last: int, now: int): (wait: int)
    requires !MaySend(last, now)
    ensures wait > 0
    ensures now >= last ==> wait <= MinSpacing
    ensures MaySend(last, now + wait)
    ensures forall t :: now <= t < now + wait ==> !MaySend(last, t)
  {
    MinSpacing - (now - last)
  }

  /** The time of the latest successful request of `requests`, or `last` if none succeeded. */
  function LastSuccess(last: int, requests: seq<Request>): int
    decreases |requests|
  {
    if requests == [] then last
    else LastSuccess(if requests[0].succeeded then requests[0].time else last, requests[1..])
  }

  /** Every request of `requests` was one the guard let through, measured from the latest
      success before it (or from `last`, for those before any success). */
  predicate Spaced(last: int, requests: seq<Request>)
    decreases |requests|
  {
    requests == [] ||
    (MaySend(last, requests[0].time) &&
     Spaced(if requests[0].succeeded then requests[0].time else last, requests[1..]))
  }

  /** What a reply makes `send_stats` do next. */
  datatype Verdict = Succeed | Retry | GiveUp(outcome: Outcome)

  /** The reply's effect: 200 succeeds; every other code goes to `handle_error`, which
      retries on 429 and otherwise reports the table's message; an exception is logged. */
  function Classify(response: Response): (v: Verdict)
    ensures v == Retry <==> response == Status(TooManyRequests)
    ensures v == Succeed <==> response == Status(200)
    ensures v.GiveUp? && response.Status? ==>
              v.outcome == Rejected(response.code, MessageFor(response.code))
    ensures response == RequestError ==> v == GiveUp(TransportFailed)
    ensures response == OtherError ==> v == GiveUp(Failed)
  {
    match response
    case Status(code) =>
      if code == 200 then Succeed
      else if code == TooManyRequests then Retry
      else GiveUp(Rejected(code, MessageFor(code)))
    case RequestError => GiveUp(TransportFailed)
    case OtherError => GiveUp(Failed)
  }

  /** `send_stats` at time `now` with `last_request_time == last`, retrying after each 429 with
      the back-off `retryAfter`. The recursion on 429 is that of `handle_error`. */
  function Deliver(last: int, retryAfter: int, now: int, responses: seq<Response>): Run
    decreases |responses|
  {
    if !MaySend(last, now) then
      Run([], last, now, Skipped(RemainingWait(last, now)))
    else if responses == [] then
      Run([Request(now, false)], last, now, Unanswered)
    else match Classify(responses[0])
      case Succeed =>
        Run([Request(now, true)], now, now, Delivered)
      case Retry =>
        var rest := Deliver(last, retryAfter, now + Pause(retryAfter), responses[1..]);
        rest.(requests := [Request(now, false)] + rest.requests)
      case GiveUp(outcome) =>
        Run([Request(now, false)], last, now, outcome)
  }

  /** The guard alone decides whether a call sends anything: if it refuses, the call issues
      no request, changes nothing and reports the wait; if it lets the first request through,
      no later retry of the same call is refused. A call issues at most one request per reply
      of the script, plus one whose reply lies beyond it, and the clock never moves backwards. */
  lemma {:induction false} GuardDecidesCall(last: int, retryAfter: int, now: int, responses: seq<Response>)
    ensures var r := Deliver(last, retryAfter, now, responses);
            (r.requests == [] <==> !MaySend(last, now)) &&
            (r.outcome.Skipped? <==> !MaySend(last, now)) &&
            (!MaySend(last, now) ==>
               r.last == last && r.endTime == now && r.outcome == Skipped(MinSpacing - (now - last))) &&
            r.endTime >= now &&
            |r.requests| <= |responses| + 1
    decreases |responses|
  {
    if MaySend(last, now) && responses != [] && responses[0] == Status(TooManyRequests) {
      var later := now + Pause(retryAfter);
      GuardDecidesCall(last, retryAfter, later, responses[1..]);
    }
  }

  /** `send_stats` with `handle_error`'s retry after 429 turned into a loop over the reply
      script: each 429 waits `retryAfter` and goes round to the guard. Returns the outcome,
      the clock at the end, the new `last_request_time` and the requests issued. */
  method Send(last: int, retryAfter: int, now: int, responses: seq<Response>)
    returns (outcome: Outcome, endTime: int, newLast: int, ghost sent: seq<Request>)
    ensures var r := Deliver(last, retryAfter, now, responses);
            outcome == r.outcome && endTime == r.endTime && newLast == r.last
    ensures sent == Deliver(last, retryAfter, now, responses).requests
  {
    ghost var target := Deliver(last, retryAfter, now, responses);
    sent := [];
    newLast := last;
    var clock := now;
    var rest := responses;
    while true
      invariant var d := Deliver(newLast, retryAfter, clock, rest);
                target.requests == sent + d.requests && target.last == d.last &&
                target.endTime == d.endTime && target.outcome == d.outcome
      decreases |rest|
    {
      if !MaySend(newLast, clock) {
        outcome, endTime := Skipped(RemainingWait(newLast, clock)), clock;
        break;
      }
      if rest == [] {
        sent := sent + [Request(clock, false)];
        outcome, endTime := Unanswered, clock;
        break;
      }
      var verdict := Classify(rest[0]);
      if verdict == Succeed {
        newLast := clock;
        sent := sent + [Request(clock, true)];
        outcome, endTime := Delivered, clock;
        break;
      }
      if verdict.GiveUp? {
        sent := sent + [Request(clock, false)];
        outcome, endTime := verdict.outcome, clock;
        break;
      }
      DeliverRetry(newLast, retryAfter, clock, rest);
      ghost var later := Deliver(newLast, retryAfter, clock + Pause(retryAfter), rest[1..]);
      assert (sent + [Request(clock, false)]) + later.requests == sent + ([Request(clock, false)] + later.requests);
      sent := sent + [Request(clock, false)];
      clock := clock + Pause(retryAfter);
      rest := rest[1..];
    }
    assert target.requests == sent;
  }

  /** A 429 that the guard let through costs one failed request and a back-off of
      `retryAfter`; the rest of the call is a fresh call at the later time with the rest
      of the replies and `last_request_time` unchanged. */
  lemma DeliverRetry(last: int, retryAfter: int, now: int, responses: seq<Response>)
    requires MaySend(last, now) && responses != [] && responses[0] == Status(TooManyRequests)
    ensures var r := Deliver(last, retryAfter, now, responses);
            var rest := Deliver(last, retryAfter, now + Pause(retryAfter), responses[1..]);
            r.requests == [Request(now, false)] + rest.requests &&
            r.last == rest.last && r.endTime == rest.endTime && r.outcome == rest.outcome
  {
  }

  /** A call's first request goes out at once, and the call leaves `last_request_time` at
      its latest successful request, or where it was if none succeeded. */
  lemma {:induction false} DeliverSetsLastOnSuccess(last: int, retryAfter: int, now: int, responses: seq<Response>)
    ensures var r := Deliver(last, retryAfter, now, responses);
            (r.requests != [] ==> r.requests[0].time == now) &&
            r.last == LastSuccess(last, r.requests)
    decreases |responses|
  {
    if MaySend(last, now) && responses != [] && responses[0] == Status(TooManyRequests) {
      var later := now + Pause(retryAfter);
      DeliverSetsLastOnSuccess(last, retryAfter, later, responses[1..]);
      var rest := Deliver(last, retryAfter, later, responses[1..]);
      var r := Deliver(last, retryAfter, now, responses);
      assert r.requests == [Request(now, false)] + rest.requests;
      assert r.requests[1..] == rest.requests;
    }
  }

  /** Only the final request of a call can succeed, and it succeeds exactly when the call
      ends `Delivered`, which leaves `last_request_time` at the instant the call returns. */
  lemma {:induction false} OnlyFinalRequestSucceeds(last: int, retryAfter: int, now: int, responses: seq<Response>)
    ensures var r := Deliver(last, retryAfter, now, responses);
            (forall i :: 0 <= i < |r.requests| - 1 ==> !r.requests[i].succeeded) &&
            (r.outcome.Delivered? <==> r.requests != [] && r.requests[|r.requests| - 1].succeeded) &&
            (r.outcome.Delivered? ==> r.last == r.endTime)
    decreases |responses|
  {
    if MaySend(last, now) && responses != [] && responses[0] == Status(TooManyRequests) {
      var later := now + Pause(retryAfter);
      OnlyFinalRequestSucceeds(last, retryAfter, later, responses[1..]);
      var rest := Deliver(last, retryAfter, later, responses[1..]);
      var r := Deliver(last, retryAfter, now, responses);
      assert r.requests == [Request(now, false)] + rest.requests;
      forall i | 1 <= i < |r.requests| - 1
        ensures !r.requests[i].succeeded
      {
        assert r.requests[i] == rest.requests[i - 1];
      }
    }
  }

  /** `k` replies of 429. */
  function Throttled(k: nat): (s: seq<Response>)
    ensures |s| == k && forall i :: 0 <= i < k ==> s[i] == Status(TooManyRequests)
  {
    seq(k, _ => Status(TooManyRequests))
  }

  /** `k` throttled replies and then a 200 cost exactly k + 1 requests, one every back-off
      period; only the last succeeds, and it alone sets `last_request_time`. */
  lemma {:induction false} ThrottledThenDelivered(last: int, retryAfter: int, now: int, k: nat)
    requires MaySend(last, now)
    ensures var r := Deliver(last, retryAfter, now, Throttled(k) + [Status(200)]);
            |r.requests| == k + 1 &&
            (forall i :: 0 <= i <= k ==> r.requests[i].time == now + i * Pause(retryAfter)) &&
            (forall i :: 0 <= i < k ==> !r.requests[i].succeeded) &&
            r.requests[k].succeeded &&
            r.outcome == Delivered &&
            r.last == now + k * Pause(retryAfter)
    decreases k
  {
    var p := Pause(retryAfter);
    var rs := Throttled(k) + [Status(200)];
    if k > 0 {
      assert rs[0] == Status(TooManyRequests);
      assert rs[1..] == Throttled(k - 1) + [Status(200)];
      DeliverRetry(last, retryAfter, now, rs);
      ThrottledThenDelivered(last, retryAfter, now + p, k - 1);
      var rest := Deliver(last, retryAfter, now + p, rs[1..]);
      var r := Deliver(last, retryAfter, now, rs);
      forall i | 1 <= i <= k
        ensures r.requests[i].time == now + i * p
      {
        assert r.requests[i] == rest.requests[i - 1];
        assert now + p + (i - 1) * p == now + i * p;
      }
      assert now + p + (k - 1) * p == now + k * p;
    } else {
      assert rs == [Status(200)];
    }
  }

  /** Any reply but 429 ends the call after exactly one request: only a 200 changes
      `last_request_time`, and every other reply leaves it and the clock as they were. */
  lemma OneRequestUnlessThrottled(last: int, retryAfter: int, now: int, responses: seq<Response>)
    requires MaySend(last, now)
    requires responses != [] && responses[0] != Status(TooManyRequests)
    ensures var r := Deliver(last, retryAfter, now, responses);
            |r.requests| == 1 && r.endTime == now &&
            (r.last == if responses[0] == Status(200) then now else last) &&
            (responses[0].Status? && responses[0].code != 200 ==>
               r.outcome == Rejected(responses[0].code, MessageFor(responses[0].code))) &&
            (responses[0] == RequestError ==> r.outcome == TransportFailed) &&
            (responses[0] == OtherError ==> r.outcome == Failed)
  {
  }

  /** A retry is never refused by the guard: the clock only moves forward during the
      back-off and `last_request_time` is unchanged, so every request of a call is one the
      guard allows. */
  lemma {:induction false} DeliverSpaced(last: int, retryAfter: int, now: int, responses: seq<Response>)
    ensures Spaced(last, Deliver(last, retryAfter, now, responses).requests)
    decreases |responses|
  {
    var r := Deliver(last, retryAfter, now, responses);
    if MaySend(last, now) && responses != [] && responses[0] == Status(TooManyRequests) {
      var later := now + Pause(retryAfter);
      DeliverSpaced(last, retryAfter, later, responses[1..]);
      var rest := Deliver(last, retryAfter, later, responses[1..]);
      assert r.requests == [Request(now, false)] + rest.requests;
      assert r.requests[1..] == rest.requests;
    }
  }

  /** A call keeps a history consistent: if `last` is the latest success of a spaced
      history, the history extended by the call's requests is spaced and its latest
      success is the call's new `last_request_time`. */
  lemma DeliverExtendsHistory(history: seq<Request>, last: int, retryAfter: int, now: int, responses: seq<Response>)
    requires last == LastSuccess(Unset, history) && Spaced(Unset, history)
    ensures var r := Deliver(last, retryAfter, now, responses);
            r.last == LastSuccess(Unset, history + r.requests) && Spaced(Unset, history + r.requests)
  {
    var r := Deliver(last, retryAfter, now, responses);
    DeliverSetsLastOnSuccess(last, retryAfter, now, responses);
    LastSuccessAppend(Unset, history, r.requests);
    DeliverSpaced(last, retryAfter, now, responses);
    SpacedAppend(Unset, history, r.requests);
  }

  /** The latest success after two batches of requests is found by folding over the first
      batch and then the second. */
  lemma {:induction false} LastSuccessAppend(last: int, a: seq<Request>, b: seq<Request>)
    ensures LastSuccess(last, a + b) == LastSuccess(LastSuccess(last, a), b)
    decreases |a|
  {
    if a != [] {
      assert (a + b)[1..] == a[1..] + b;
      LastSuccessAppend(if a[0].succeeded then a[0].time else last, a[1..], b);
    } else {
      assert a + b == b;
    }
  }

  /** Two batches of requests are spaced together iff each is spaced, the second measured
      from the latest success of the first. */
  lemma {:induction false} SpacedAppend(last: int, a: seq<Request>, b: seq<Request>)
    ensures Spaced(last, a + b) <==> Spaced(last, a) && Spaced(LastSuccess(last, a), b)
    decreases |a|
  {
    if a != [] {
      assert (a + b)[1..] == a[1..] + b;
      SpacedAppend(if a[0].succeeded then a[0].time else last, a[1..], b);
    } else {
      assert a + b == b;
    }
  }

  /** The guard's promise over any spaced history: two consecutive successful requests are at
      least 30 seconds apart, unless the first happened at the instant 0 that the
      reporter takes for "never". */
  lemma {:induction false} SuccessesApart(last: int, requests: seq<Request>, i: nat, j: nat)
    requires Spaced(last, requests)
    requires i < j < |requests|
    requires requests[i].succeeded && requests[j].succeeded
    requires forall k :: i < k < j ==> !requests[k].succeeded
    requires requests[i].time != Unset
    ensures requests[j].time - requests[i].time >= MinSpacing
    decreases i
  {
    var next := if requests[0].succeeded then requests[0].time else last;
    if i > 0 {
      SuccessesApart(next, requests[1..], i - 1, j - 1);
    } else {
      SpacedBetween(next, requests[1..], j - 1);
    }
  }

  /** In a spaced history whose first `j` requests all failed, request `j` is measured
      from `last`. */
  lemma {:induction false} SpacedBetween(last: int, requests: seq<Request>, j: nat)
    requires Spaced(last, requests)
    requires j < |requests|
    requires forall k :: 0 <= k < j ==> !requests[k].succeeded
    ensures MaySend(last, requests[j].time)
    decreases j
  {
    if j > 0 {
      SpacedBetween(last, requests[1..], j - 1);
    }
  }
}
