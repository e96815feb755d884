/** The reporter object `MircordBotStats`: its configuration, its lifecycle (`activate`,
    `stop`, `is_running`), its guarded send with retry on 429, its background loop and the
    elapsed-time report. The clock is the `now` argument; the network is the response
    script of `Delivery`; the host's `stop` during the loop's sleep is part of a `Tick`. */
module Reporter {
  import opened Clock
  import opened ErrorTable
  import opened Delivery
  import opened Schedule

  datatype Option<T> = None | Some(value: T)

  /** What a non-positive back-off or interval is replaced by at construction. */
  const DefaultSeconds := 120

  /** The constructor's coercion: only a positive value is kept. */
  function Coerce(seconds: int): (r: int)
    ensures r > 0
    ensures seconds > 0 ==> r == seconds
    ensures seconds <= 0 ==> r == DefaultSeconds
  {
    if seconds <= 0 then DefaultSeconds else seconds
  }

  /** Python truthiness of the optional interval handed to `activate`: given and not zero. */
  predicate Truthy(interval: Option<int>)
  {
    interval.Some? && interval.value != 0
  }

  class MircordBotStats {
    var retryAfter: int
    var updateInterval: int
    var lastRequestTime: int
    var running: bool
    /** The newest loop task, if one was ever started; `stop` cancels it but keeps it. */
    var updateTask: Option<TaskStatus>

    /** Every task ever started, oldest first. */
    ghost var tasks: seq<TaskStatus>
    /** Every request ever issued, in order. */
    ghost var log: seq<Request>

    /** Only the newest task can be live, and it is live exactly while the reporter runs;
        `lastRequestTime` is the time of the latest successful request, and every request
        was let through by the rate guard. */
    ghost predicate Valid()
      reads this
    {
      (updateTask == None <==> tasks == []) &&
      (updateTask.Some? ==> updateTask.value == tasks[|tasks| - 1]) &&
      (forall i :: 0 <= i < |tasks| - 1 ==> tasks[i] == Cancelled) &&
      (running <==> tasks != [] && tasks[|tasks| - 1] == Live) &&
      lastRequestTime == LastSuccess(Unset, log) &&
      Spaced(Unset, log)
    }

    constructor (retryAfter: int := 120, updateInterval: int := 120)
      ensures Valid()
      ensures this.retryAfter == Coerce(retryAfter) && this.updateInterval == Coerce(updateInterval)
      ensures lastRequestTime == Unset && !running && updateTask == None
      ensures tasks == [] && log == []
    {
      this.retryAfter := Coerce(retryAfter);
      this.updateInterval := Coerce(updateInterval);
      lastRequestTime := Unset;
      running := false;
      updateTask := None;
      tasks := [];
      log := [];
    }

    /** `is_running`: whether a loop runs. */
    function IsRunning(): (r: bool)
      requires Valid()
      reads this
      ensures r <==> CountLive(tasks) == 1
      ensures !r <==> CountLive(tasks) == 0
    {
      AtMostOneLoop(tasks);
      running
    }

    /** `activate`: a truthy interval replaces the configured one, checked or not and
        running or not; a loop is started only if none runs. */
    method Activate(interval: Option<int> := None)
      requires Valid()
      modifies this
      ensures Valid()
      ensures running && CountLive(tasks) == 1
      ensures updateInterval == if Truthy(interval) then interval.value else old(updateInterval)
      ensures old(running) ==> tasks == old(tasks) && updateTask == old(updateTask)
      ensures !old(running) ==> tasks == old(tasks) + [Live] && updateTask == Some(Live)
      ensures retryAfter == old(retryAfter) && lastRequestTime == old(lastRequestTime)
      ensures log == old(log)
    {
      if Truthy(interval) {
        updateInterval := interval.value;
      }
      if !running {
        running := true;
        updateTask := Some(Live);
        tasks := tasks + [Live];
      }
      AtMostOneLoop(tasks);
    }

    /** `stop`: a no-op unless running; otherwise the loop's task is cancelled. */
    method Stop()
      requires Valid()
      modifies this
      ensures Valid()
      ensures !running && CountLive(tasks) == 0
      ensures !old(running) ==> tasks == old(tasks) && updateTask == old(updateTask)
      ensures old(running) ==> tasks == old(tasks)[..|old(tasks)| - 1] + [Cancelled]
      ensures old(running) ==> updateTask == Some(Cancelled)
      ensures retryAfter == old(retryAfter) && updateInterval == old(updateInterval)
      ensures lastRequestTime == old(lastRequestTime) && log == old(log)
    {
      if running {
        running := false;
        if updateTask.Some? {
          updateTask := Some(Cancelled);
          tasks := tasks[..|tasks| - 1] + [Cancelled];
        }
      }
      AtMostOneLoop(tasks);
    }

    /** `send_stats` at time `now`: the guarded send with its retries, whose outcome becomes
        the new `last_request_time`. */
    method SendStats(now: int, responses: seq<Response>) returns (outcome: Outcome, endTime: int)
      requires Valid()
      modifies this`lastRequestTime, this`log
      ensures Valid()
      ensures var r := Deliver(old(lastRequestTime), retryAfter, now, responses);
              outcome == r.outcome && endTime == r.endTime &&
              lastRequestTime == r.last && log == old(log) + r.requests
    {
      DeliverExtendsHistory(log, lastRequestTime, retryAfter, now, responses);
      var last;
      ghost var sent;
      outcome, endTime, last, sent := Send(lastRequestTime, retryAfter, now, responses);
      lastRequestTime, log := last, log + sent;
    }

    /** `update_now`: the same guarded send, triggered by the host. */
    method UpdateNow(now: int, responses: seq<Response>) returns (outcome: Outcome, endTime: int)
      requires Valid()
      modifies this`lastRequestTime, this`log
      ensures Valid()
      ensures var r := Deliver(old(lastRequestTime), retryAfter, now, responses);
              outcome == r.outcome && endTime == r.endTime &&
              lastRequestTime == r.last && log == old(log) + r.requests
    {
      outcome, endTime := SendStats(now, responses);
    }

    /** One pass of `run_update_loop`'s body: send, then sleep `updateInterval`; a `stop`
        from the host during the sleep cancels the loop. Returns the clock after the sleep. */
    method Iterate(clock: int, tick: Tick) returns (next: int)
      requires Valid() && running
      modifies this
      ensures Valid()
      ensures retryAfter == old(retryAfter) && updateInterval == old(updateInterval)
      ensures var d := Deliver(old(lastRequestTime), retryAfter, clock, tick.responses);
              lastRequestTime == d.last && log == old(log) + d.requests &&
              next == d.endTime + Pause(updateInterval)
      ensures running <==> !tick.stopWhileSleeping
      ensures running ==> tasks == old(tasks) && updateTask == old(updateTask)
      ensures !running ==> tasks == old(tasks)[..|old(tasks)| - 1] + [Cancelled] && updateTask == Some(Cancelled)
      ensures CountLive(tasks) == if running then 1 else 0
    {
      var outcome, endTime := SendStats(clock, tick.responses);
      next := endTime + Pause(updateInterval);
      if tick.stopWhileSleeping {
        Stop();
      } else {
        AtMostOneLoop(tasks);
      }
    }

    /** `run_update_loop` started at `now`: while running, send and then sleep
        `updateInterval`. Returns the instants at which it entered `send_stats`. */
    method RunUpdateLoop(now: int, ticks: seq<Tick>) returns (calls: seq<int>)
      requires Valid()
      modifies this
      ensures Valid()
      ensures retryAfter == old(retryAfter) && updateInterval == old(updateInterval)
      ensures !old(running) ==> calls == [] && lastRequestTime == old(lastRequestTime) && log == old(log)
      ensures old(running) ==>
                var r := RunLoop(old(lastRequestTime), retryAfter, updateInterval, now, ticks);
                calls == r.calls && lastRequestTime == r.last && log == old(log) + r.requests
      ensures !old(running) ==> !running && tasks == old(tasks) && updateTask == old(updateTask)
      ensures old(running) ==> (running <==> forall i :: 0 <= i < |ticks| ==> !ticks[i].stopWhileSleeping)
      ensures running ==> tasks == old(tasks) && updateTask == old(updateTask)
      ensures old(running) && !running ==>
                tasks == old(tasks)[..|old(tasks)| - 1] + [Cancelled] && updateTask == Some(Cancelled)
      ensures CountLive(tasks) == if running then 1 else 0
    {
      calls := [];
      AtMostOneLoop(tasks);
      if !running {
        return;
      }
      ghost var whole := RunLoop(lastRequestTime, retryAfter, updateInterval, now, ticks);
      ghost var target := LoopRun(whole.calls, log + whole.requests, whole.last);
      ghost var tasks0, task0 := tasks, updateTask;
      var clock := now;
      var i := 0;
      ghost var remaining := ticks;
      while i < |ticks|
        invariant Valid() && running
        invariant 0 <= i <= |ticks|
        invariant retryAfter == old(retryAfter) && updateInterval == old(updateInterval)
        invariant tasks == tasks0 && updateTask == task0
        invariant forall k :: 0 <= k < i ==> !ticks[k].stopWhileSleeping
        invariant remaining == ticks[i..]
        invariant target == Join(calls, log, RunLoop(lastRequestTime, retryAfter, updateInterval, clock, remaining))
        decreases |ticks| - i
      {
        assert remaining[0] == ticks[i];
        LoopStep(target, calls, log, lastRequestTime, retryAfter, updateInterval, clock, remaining);
        remaining := remaining[1..];
        calls := calls + [clock];
        clock := Iterate(clock, ticks[i]);
        i := i + 1;
        if !running {
          return;
        }
      }
      assert remaining == [];
      assert calls + [] == calls && log + [] == log;
    }

    /** `get_time_since_last_update`: the time since the latest success as minutes and
        seconds. With no success yet it counts from the instant 0. */
    function TimeSinceLastUpdate(now: int): (r: (int, int))
      reads this
      ensures r.0 * 60 + r.1 == now - lastRequestTime
      ensures 0 <= r.1 < 60
    {
      MinutesSeconds(now - lastRequestTime)
    }

    /** The setter `update_interval`, without any check. The constructor's instance attribute
        of the same name hides it, so no caller can reach it through an instance. */
    method SetUpdateInterval(interval: int)
      requires Valid()
      modifies this`updateInterval
      ensures Valid() && updateInterval == interval
    {
      updateInterval := interval;
    }

    /** `update_retry_after`, without any check: a non-positive back-off is accepted. */
    method UpdateRetryAfter(seconds: int)
      requires Valid()
      modifies this`retryAfter
      ensures Valid() && retryAfter == seconds
    {
      retryAfter := seconds;
    }
  }
}
