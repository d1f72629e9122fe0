/**
 * The workflow status poller: after a run is triggered it asks for the run's
 * status every few seconds, follows it through queued and in progress, and
 * stops on completion, on too many polls, or on too many failed requests in a
 * row. Ticks are taken one after the other; the clock reading and the outcome
 * of each status request are inputs.
 */
module Poller {
  import opened Wrappers

  datatype WorkflowStatus = Idle | Queued | InProgress | Completed | Failed | Timeout | Error

  const POLL_INTERVAL_MS: nat := 4000
  /** Ten minutes of polls at POLL_INTERVAL_MS. */
  const MAX_POLLS: nat := 150
  const MAX_CONSECUTIVE_ERRORS: nat := 5

  /**
   * What one status request gives: the run's status and conclusion, or a
   * failure (the fetch threw, the response was not ok, or its body was not JSON).
   */
  datatype StatusReply = Reply(status: string, conclusion: Option<string>) | RequestFailed

  /**
   * Everything the hook keeps: the status and elapsed seconds it shows,
   * whether an interval is set, the run, the poll and error counters, the
   * start time, and the number of status requests made for the current run.
   */
  datatype PollerState = PollerState(
    status: WorkflowStatus,
    elapsedSeconds: int,
    polling: bool,
    runId: int,
    startTime: int,
    pollCount: nat,
    consecutiveErrors: nat,
    requests: nat)

  const INITIAL: PollerState := PollerState(Idle, 0, false, 0, 0, 0, 0, 0)

  /** stopPolling: clear the interval if there is one. */
  function Stopped(s: PollerState): PollerState {
    s.(polling := false)
  }

  /** startPolling: stop any previous interval, reset the counters, show queued, and set a new interval. */
  function Started(s: PollerState, runId: int, now: int): PollerState {
    PollerState(Queued, 0, true, runId, now, 0, 0, 0)
  }

  /** Math.floor((now - start) / 1000); Dafny's division by a positive number already rounds down. */
  function ElapsedSeconds(start: int, now: int): int {
    (now - start) / 1000
  }

  /** The state after a tick, and whether it scheduled the completion callback. */
  datatype Step = Step(state: PollerState, notify: bool)

  /**
   * One interval tick at clock reading `now`, whose status request (made only
   * when the poll limit is not passed) gives `reply`. A cleared interval does
   * not tick.
   */
  function Tick(s: PollerState, now: int, reply: StatusReply): Step {
    if !s.polling then Step(s, false)
    else
      var s1 := s.(elapsedSeconds := ElapsedSeconds(s.startTime, now), pollCount := s.pollCount + 1);
      if s1.pollCount > MAX_POLLS then Step(s1.(polling := false, status := Timeout), false)
      else
        var s2 := s1.(requests := s1.requests + 1);
        match reply
        case RequestFailed =>
          var errors := s2.consecutiveErrors + 1;
          if errors >= MAX_CONSECUTIVE_ERRORS then
            Step(s2.(consecutiveErrors := errors, polling := false, status := Error), false)
          else Step(s2.(consecutiveErrors := errors), false)
        case Reply(status, conclusion) =>
          var s3 := s2.(consecutiveErrors := 0);
          if status == "queued" then Step(s3.(status := Queued), false)
          else if status == "in_progress" then Step(s3.(status := InProgress), false)
          else if status == "completed" then
            if conclusion == Some("success") then Step(s3.(polling := false, status := Completed), true)
            else Step(s3.(polling := false, status := Failed), false)
          else Step(s3, false)
  }

  /** A tick of the interval, at a clock reading, with the outcome of its request. */
  datatype TickEvent = TickEvent(now: int, reply: StatusReply)

  /** The state after the given ticks, one after the other. */
  function Run(s: PollerState, events: seq<TickEvent>): PollerState
    decreases |events|
  {
    if events == [] then s
    else Run(Tick(s, events[0].now, events[0].reply).state, events[1..])
  }

  /**
   * What holds between ticks: requests never pass the poll limit, one is made
   * per poll until the limit, and while the interval is set the counters are
   * below their limits.
   */
  predicate Inv(s: PollerState) {
    && s.requests <= MAX_POLLS
    && s.requests <= s.pollCount
    && (s.polling ==> s.requests == s.pollCount && s.pollCount <= MAX_POLLS)
    && (s.polling ==> s.consecutiveErrors < MAX_CONSECUTIVE_ERRORS)
  }

  lemma InitialInv()
    ensures Inv(INITIAL)
  {
  }

  lemma StartedInv(s: PollerState, runId: int, now: int)
    ensures Inv(Started(s, runId, now))
    ensures Started(s, runId, now).status == Queued && Started(s, runId, now).elapsedSeconds == 0
  {
  }

  lemma StoppedInv(s: PollerState)
    requires Inv(s)
    ensures Inv(Stopped(s))
  {
  }

  /** Every tick keeps the invariant. */
  lemma TickInv(s: PollerState, now: int, reply: StatusReply)
    requires Inv(s)
    ensures Inv(Tick(s, now, reply).state)
  {
  }

  /** Any run of ticks keeps the invariant. */
  lemma {:induction false} RunInv(s: PollerState, events: seq<TickEvent>)
    requires Inv(s)
    ensures Inv(Run(s, events))
    decreases |events|
  {
    if events != [] {
      TickInv(s, events[0].now, events[0].reply);
      RunInv(Tick(s, events[0].now, events[0].reply).state, events[1..]);
    }
  }

  /** At most MAX_POLLS status requests are made for a run, however many ticks there are. */
  lemma AtMostMaxPolls(s: PollerState, runId: int, now: int, events: seq<TickEvent>)
    ensures Run(Started(s, runId, now), events).requests <= MAX_POLLS
  {
    StartedInv(s, runId, now);
    RunInv(Started(s, runId, now), events);
  }

  /** While the interval stays set, every tick is a poll, and there are at most MAX_POLLS of them. */
  lemma {:induction false} RunCounts(s: PollerState, events: seq<TickEvent>)
    requires Inv(s)
    ensures Run(s, events).polling ==> s.polling && Run(s, events).pollCount == s.pollCount + |events|
    decreases |events|
  {
    if events != [] {
      var t := Tick(s, events[0].now, events[0].reply).state;
      TickInv(s, events[0].now, events[0].reply);
      RunCounts(t, events[1..]);
      if !s.polling {
        StoppedRun(s, events[1..]);
      }
    }
  }

  /** Polling always ends: a run has stopped after more than MAX_POLLS ticks. */
  lemma PollingEnds(s: PollerState, runId: int, now: int, events: seq<TickEvent>)
    requires |events| > MAX_POLLS
    ensures !Run(Started(s, runId, now), events).polling
  {
    var s0 := Started(s, runId, now);
    StartedInv(s, runId, now);
    RunCounts(s0, events);
    RunInv(s0, events);
  }

  /** Once the interval is cleared, ticks change nothing. */
  lemma {:induction false} StoppedRun(s: PollerState, events: seq<TickEvent>)
    requires !s.polling
    ensures Run(s, events) == s
    decreases |events|
  {
    if events != [] {
      StoppedRun(s, events[1..]);
    }
  }

  /** stopPolling is idempotent. */
  lemma StopIdempotent(s: PollerState)
    ensures Stopped(Stopped(s)) == Stopped(s)
    ensures !Stopped(s).polling
  {
  }

  /** A status request that succeeds resets the error count. */
  lemma SuccessResetsErrors(s: PollerState, now: int, status: string, conclusion: Option<string>)
    requires s.polling && s.pollCount < MAX_POLLS
    ensures Tick(s, now, Reply(status, conclusion)).state.consecutiveErrors == 0
  {
  }

  /**
   * A completed run stops polling with 'completed' exactly when its
   * conclusion is success, and only then is the callback scheduled.
   */
  lemma CompletedOutcome(s: PollerState, now: int, conclusion: Option<string>)
    requires s.polling && s.pollCount < MAX_POLLS
    ensures var t := Tick(s, now, Reply("completed", conclusion));
      && !t.state.polling
      && (t.state.status == Completed <==> conclusion == Some("success"))
      && (t.state.status != Completed ==> t.state.status == Failed)
      && (t.notify <==> conclusion == Some("success"))
  {
    StatusNamesDiffer();
  }

  /** A status other than queued, in progress or completed leaves the shown status as it was. */
  lemma UnknownStatusUnchanged(s: PollerState, now: int, status: string, conclusion: Option<string>)
    requires s.polling && s.pollCount < MAX_POLLS
    requires status != "queued" && status != "in_progress" && status != "completed"
    ensures Tick(s, now, Reply(status, conclusion)).state.status == s.status
    ensures Tick(s, now, Reply(status, conclusion)).state.polling
  {
  }

  /** A failed request stops with 'error' on the fifth in a row, and before that changes nothing shown. */
  lemma FailureCount(s: PollerState, now: int)
    requires Inv(s) && s.polling && s.pollCount < MAX_POLLS
    ensures var t := Tick(s, now, RequestFailed).state;
      && t.consecutiveErrors == s.consecutiveErrors + 1
      && (t.consecutiveErrors == MAX_CONSECUTIVE_ERRORS <==> t.status == Error && !t.polling)
      && (t.consecutiveErrors < MAX_CONSECUTIVE_ERRORS ==> t.status == s.status && t.polling)
  {
  }

  /** Passing the poll limit stops with 'timeout' without a request. */
  lemma TimeoutWithoutRequest(s: PollerState, now: int, reply: StatusReply)
    requires s.polling && s.pollCount == MAX_POLLS
    ensures var t := Tick(s, now, reply).state;
      t.status == Timeout && !t.polling && t.requests == s.requests
  {
  }

  /** Five failed requests in a row from a fresh start end in 'error'. */
  lemma FiveFailuresStop(s: PollerState, runId: int, now: int)
    ensures var fail := TickEvent(now, RequestFailed);
      var t := Run(Started(s, runId, now), [fail, fail, fail, fail, fail]);
      t.status == Error && !t.polling && t.requests == MAX_CONSECUTIVE_ERRORS
  {
    var fail := TickEvent(now, RequestFailed);
    var s0 := Started(s, runId, now);
    var s1 := Tick(s0, now, RequestFailed).state;
    var s2 := Tick(s1, now, RequestFailed).state;
    var s3 := Tick(s2, now, RequestFailed).state;
    var s4 := Tick(s3, now, RequestFailed).state;
    var s5 := Tick(s4, now, RequestFailed).state;
    assert s4.polling && s4.consecutiveErrors == 4 && s4.pollCount == 4 && s4.requests == 4;
    assert s5.status == Error && !s5.polling && s5.requests == 5;
    var es := [fail, fail, fail, fail, fail];
    StoppedRun(s5, []);
    assert Run(s4, es[4..]) == s5;
    assert Run(s3, es[3..]) == s5 by { assert es[3..][1..] == es[4..]; }
    assert Run(s2, es[2..]) == s5 by { assert es[2..][1..] == es[3..]; }
    assert Run(s1, es[1..]) == s5 by { assert es[1..][1..] == es[2..]; }
  }

  /** The status strings the tick compares with differ. */
  lemma StatusNamesDiffer()
    ensures "completed" != "queued" && "completed" != "in_progress"
  {
    assert "completed"[0] != "queued"[0];
    assert "completed"[0] != "in_progress"[0];
  }

  /** The hook's refs and state, updated in place by its callbacks. */
  class WorkflowPoller {
    var status: WorkflowStatus
    var elapsedSeconds: int
    var intervalSet: bool
    var runId: int
    var startTime: int
    var pollCount: nat
    var consecutiveErrors: nat
    var requests: nat

    function State(): PollerState
      reads this
    {
      PollerState(status, elapsedSeconds, intervalSet, runId, startTime, pollCount, consecutiveErrors, requests)
    }

    constructor()
      ensures State() == INITIAL
    {
      status := Idle;
      elapsedSeconds := 0;
      intervalSet := false;
      runId := 0;
      startTime := 0;
      pollCount := 0;
      consecutiveErrors := 0;
      requests := 0;
    }

    /** stopPolling, also run when the component unmounts. */
    method StopPolling()
      modifies this
      ensures State() == Stopped(old(State()))
    {
      if intervalSet {
        intervalSet := false;
      }
    }

    /** startPolling(runId) with the clock reading `now`. */
    method StartPolling(id: int, now: int)
      modifies this
      ensures State() == Started(old(State()), id, now)
    {
      StopPolling();
      pollCount := 0;
      consecutiveErrors := 0;
      requests := 0;
      runId := id;
      startTime := now;
      status := Queued;
      elapsedSeconds := 0;
      intervalSet := true;
    }

    /** One run of the interval callback; `notify` is whether it scheduled onComplete. */
    method OnTick(now: int, reply: StatusReply) returns (notify: bool)
      modifies this
      ensures Step(State(), notify) == Tick(old(State()), now, reply)
    {
      notify := false;
      if !intervalSet {
        return;
      }
      elapsedSeconds := ElapsedSeconds(startTime, now);
      pollCount := pollCount + 1;
      if pollCount > MAX_POLLS {
        StopPolling();
        status := Timeout;
        return;
      }
      requests := requests + 1;
      match reply {
        case Reply(st, conclusion) =>
          consecutiveErrors := 0;
          if st == "queued" {
            status := Queued;
          } else if st == "in_progress" {
            status := InProgress;
          } else if st == "completed" {
            StopPolling();
            if conclusion == Some("success") {
              status := Completed;
              notify := true;
            } else {
              status := Failed;
            }
          }
        case RequestFailed =>
          consecutiveErrors := consecutiveErrors + 1;
          if consecutiveErrors >= MAX_CONSECUTIVE_ERRORS {
            StopPolling();
            status := Error;
          }
      }
    }
  }
}
