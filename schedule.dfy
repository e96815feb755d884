/** The background loop `run_update_loop` (send, then sleep, while running) and the
    bookkeeping of the tasks that `activate` starts and `stop` cancels. */
module Schedule {
  import opened Clock
  import opened Delivery

  /** What the outside world does during one iteration of the loop: the network's replies
      to the requests of that iteration's `send_stats`, and whether the host calls `stop`
      while the loop sleeps afterwards. */
  datatype Tick = Tick(responses: seq<Response>, stopWhileSleeping: bool)

  /** A stretch of the loop: the instants at which it entered `send_stats`, the requests
      those calls issued, and `last_request_time` at the end. */
  datatype LoopRun = LoopRun(calls: seq<int>, requests: seq<Request>, last: int)

  /** The loop started at `now`, driven by `ticks`. Each iteration sends first and sleeps
      `interval` after; a `stop` during the sleep cancels it and nothing more is sent. */
  function RunLoop(last: int, retryAfter: int, interval: int, now: int, ticks: seq<Tick>): LoopRun
    decreases |ticks|
  {
    if ticks == [] then
      LoopRun([], [], last)
    else
      var d := Deliver(last, retryAfter, now, ticks[0].responses);
      if ticks[0].stopWhileSleeping then
        LoopRun([now], d.requests, d.last)
      else
        var rest := RunLoop(d.last, retryAfter, interval, d.endTime + Pause(interval), ticks[1..]);
        LoopRun([now] + rest.calls, d.requests + rest.requests, rest.last)
  }

  /** The loop so far (`calls`, `sent`) followed by the rest of it, `r`. */
  function Join(calls: seq<int>, sent: seq<Request>, r: LoopRun): LoopRun
  {
    LoopRun(calls + r.calls, sent + r.requests, r.last)
  }

  /** The loop's first iteration: the call at `now`, then either the end (a stop during
      the sleep) or the rest of the loop after the sleep. */
  lemma RunLoopFirst(last: int, retryAfter: int, interval: int, now: int, ticks: seq<Tick>)
    requires ticks != []
    ensures var d := Deliver(last, retryAfter, now, ticks[0].responses);
            var r := RunLoop(last, retryAfter, interval, now, ticks);
            if ticks[0].stopWhileSleeping then
              r == LoopRun([now], d.requests, d.last)
            else
              var rest := RunLoop(d.last, retryAfter, interval, d.endTime + Pause(interval), ticks[1..]);
              r == LoopRun([now] + rest.calls, d.requests + rest.requests, rest.last)
  {
  }

  /** One iteration of the loop moves from the remaining ticks to what has been done: the
      call at `now` and its requests join the prefix, and either the loop ends (a stop
      during the sleep) or it resumes after the sleep with the new `last_request_time`. */
  lemma LoopStep(target: LoopRun, calls: seq<int>, sent: seq<Request>,
                 last: int, retryAfter: int, interval: int, now: int, ticks: seq<Tick>)
    requires ticks != []
    requires target == Join(calls, sent, RunLoop(last, retryAfter, interval, now, ticks))
    ensures var d := Deliver(last, retryAfter, now, ticks[0].responses);
            if ticks[0].stopWhileSleeping then
              target == LoopRun(calls + [now], sent + d.requests, d.last)
            else
              target == Join(calls + [now], sent + d.requests,
                             RunLoop(d.last, retryAfter, interval, d.endTime + Pause(interval), ticks[1..]))
  {
    RunLoopFirst(last, retryAfter, interval, now, ticks);
    var d := Deliver(last, retryAfter, now, ticks[0].responses);
    if !ticks[0].stopWhileSleeping {
      var rest := RunLoop(d.last, retryAfter, interval, d.endTime + Pause(interval), ticks[1..]);
      assert calls + ([now] + rest.calls) == (calls + [now]) + rest.calls;
      assert sent + (d.requests + rest.requests) == (sent + d.requests) + rest.requests;
    }
  }

  /** The loop sends as soon as it starts, and then once per tick up to and including the
      first tick during whose sleep the host calls `stop`; after that it sends nothing. */
  lemma {:induction false} LoopStopsAtFirstStop(last: int, retryAfter: int, interval: int, now: int, ticks: seq<Tick>)
    ensures var r := RunLoop(last, retryAfter, interval, now, ticks);
            |r.calls| <= |ticks| &&
            (ticks != [] ==> r.calls != [] && r.calls[0] == now) &&
            (forall i :: 0 <= i < |r.calls| - 1 ==> !ticks[i].stopWhileSleeping) &&
            (|r.calls| == |ticks| || ticks[|r.calls| - 1].stopWhileSleeping)
    decreases |ticks|
  {
    if ticks != [] && !ticks[0].stopWhileSleeping {
      var d := Deliver(last, retryAfter, now, ticks[0].responses);
      var later := d.endTime + Pause(interval);
      LoopStopsAtFirstStop(d.last, retryAfter, interval, later, ticks[1..]);
      var rest := RunLoop(d.last, retryAfter, interval, later, ticks[1..]);
      var r := RunLoop(last, retryAfter, interval, now, ticks);
      assert r.calls == [now] + rest.calls;
      forall i | 1 <= i < |r.calls| - 1
        ensures !ticks[i].stopWhileSleeping
      {
        assert ticks[i] == ticks[1..][i - 1];
      }
      if |r.calls| != |ticks| {
        assert ticks[|r.calls| - 1] == ticks[1..][|rest.calls| - 1];
      }
    }
  }

  /** Consecutive instants of `calls` are at least `gap` apart. */
  predicate SpacedBy(calls: seq<int>, gap: int)
  {
    forall i :: 0 <= i < |calls| - 1 ==> calls[i + 1] >= calls[i] + gap
  }

  /** Each iteration sends first and sleeps after: consecutive entries into `send_stats` are
      at least one update interval apart (more when a 429 back-off intervened). */
  lemma {:induction false} LoopSleepsBetweenSends(last: int, retryAfter: int, interval: int, now: int, ticks: seq<Tick>)
    ensures forall c :: c in RunLoop(last, retryAfter, interval, now, ticks).calls ==> c >= now
    ensures SpacedBy(RunLoop(last, retryAfter, interval, now, ticks).calls, Pause(interval))
    decreases |ticks|
  {
    if ticks != [] && !ticks[0].stopWhileSleeping {
      var d := Deliver(last, retryAfter, now, ticks[0].responses);
      var later := d.endTime + Pause(interval);
      GuardDecidesCall(last, retryAfter, now, ticks[0].responses);
      LoopSleepsBetweenSends(d.last, retryAfter, interval, later, ticks[1..]);
      var rest := RunLoop(d.last, retryAfter, interval, later, ticks[1..]);
      var r := RunLoop(last, retryAfter, interval, now, ticks);
      assert r.calls == [now] + rest.calls;
      assert later >= now;
      forall c | c in r.calls
        ensures c >= now
      {
        if c != now {
          assert c in rest.calls;
        }
      }
      forall i | 0 <= i < |r.calls| - 1
        ensures r.calls[i + 1] >= r.calls[i] + Pause(interval)
      {
        if i == 0 {
          assert r.calls[1] == rest.calls[0] && rest.calls[0] in rest.calls;
        } else {
          assert r.calls[i] == rest.calls[i - 1] && r.calls[i + 1] == rest.calls[i];
        }
      }
    }
  }

  /** At the end of the loop `last_request_time` is the time of the latest successful
      request the loop issued, or where it was if none succeeded. */
  lemma {:induction false} LoopTracksLastSuccess(last: int, retryAfter: int, interval: int, now: int, ticks: seq<Tick>)
    ensures var r := RunLoop(last, retryAfter, interval, now, ticks);
            r.last == LastSuccess(last, r.requests)
    decreases |ticks|
  {
    if ticks != [] {
      var d := Deliver(last, retryAfter, now, ticks[0].responses);
      DeliverSetsLastOnSuccess(last, retryAfter, now, ticks[0].responses);
      if !ticks[0].stopWhileSleeping {
        var later := d.endTime + Pause(interval);
        LoopTracksLastSuccess(d.last, retryAfter, interval, later, ticks[1..]);
        var rest := RunLoop(d.last, retryAfter, interval, later, ticks[1..]);
        LastSuccessAppend(last, d.requests, rest.requests);
      }
    }
  }

  /** Every request the loop issues is one the rate guard let through, measured from the
      latest success before it, across iterations as well as within one. */
  lemma {:induction false} LoopSpaced(last: int, retryAfter: int, interval: int, now: int, ticks: seq<Tick>)
    ensures Spaced(last, RunLoop(last, retryAfter, interval, now, ticks).requests)
    decreases |ticks|
  {
    if ticks != [] {
      var d := Deliver(last, retryAfter, now, ticks[0].responses);
      DeliverSpaced(last, retryAfter, now, ticks[0].responses);
      if !ticks[0].stopWhileSleeping {
        var rest := RunLoop(d.last, retryAfter, interval, d.endTime + Pause(interval), ticks[1..]);
        LoopSpaced(d.last, retryAfter, interval, d.endTime + Pause(interval), ticks[1..]);
        DeliverSetsLastOnSuccess(last, retryAfter, now, ticks[0].responses);
        SpacedAppend(last, d.requests, rest.requests);
      }
    }
  }

  /** A loop that the host never stops makes one `send_stats` call per tick. */
  lemma LoopRunsEveryTick(last: int, retryAfter: int, interval: int, now: int, ticks: seq<Tick>)
    requires forall i :: 0 <= i < |ticks| ==> !ticks[i].stopWhileSleeping
    ensures |RunLoop(last, retryAfter, interval, now, ticks).calls| == |ticks|
  {
    LoopStopsAtFirstStop(last, retryAfter, interval, now, ticks);
  }

  /** The state of a task that `activate` created. */
  datatype TaskStatus = Live | Cancelled

  /** How many loops are running. */
  function CountLive(tasks: seq<TaskStatus>): nat
    decreases |tasks|
  {
    if tasks == [] then 0
    else CountLive(tasks[..|tasks| - 1]) + (if tasks[|tasks| - 1] == Live then 1 else 0)
  }

  /** When every task but the newest has been cancelled, at most one loop runs, and one
      runs exactly when the newest task is live. */
  lemma {:induction false} AtMostOneLoop(tasks: seq<TaskStatus>)
    requires forall i :: 0 <= i < |tasks| - 1 ==> tasks[i] == Cancelled
    ensures CountLive(tasks) == if tasks != [] && tasks[|tasks| - 1] == Live then 1 else 0
  {
    if tasks != [] {
      AllCancelled(tasks[..|tasks| - 1]);
    }
  }

  /** No loop runs among cancelled tasks. */
  lemma {:induction false} AllCancelled(tasks: seq<TaskStatus>)
    requires forall i :: 0 <= i < |tasks| ==> tasks[i] == Cancelled
    ensures CountLive(tasks) == 0
    decreases |tasks|
  {
    if tasks != [] {
      AllCancelled(tasks[..|tasks| - 1]);
    }
  }
}
