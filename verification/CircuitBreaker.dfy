/** The circuit breaker (tools/circuit_breaker.py). The clock is a parameter of each call; the
    class is proved to decide as a function of the history of its calls. */
module CircuitBreakers {
  import opened Wrappers

  // ----- the history and what it means -----

  datatype Event = Failed(at: real) | Succeeded(at: real) | WasReset(at: real) | Asked(at: real)

  predicate Clears(e: Event) { e.Succeeded? || e.WasReset? }

  /** Failures since the last success or reset. */
  function Failures(history: seq<Event>): nat {
    if history == [] then 0
    else
      var e := history[|history| - 1];
      var before := Failures(history[..|history| - 1]);
      if e.Failed? then before + 1 else if Clears(e) then 0 else before
  }

  /** When the last failure happened. */
  function LastFailure(history: seq<Event>): Option<real> {
    if history == [] then None
    else if history[|history| - 1].Failed? then Some(history[|history| - 1].at)
    else LastFailure(history[..|history| - 1])
  }

  predicate Tripped(threshold: int, history: seq<Event>) {
    Failures(history) >= 1 && Failures(history) >= threshold
  }

  /** A request at time t is admitted: too few failures, or the last one is long enough ago. */
  predicate Admits(threshold: int, timeout: real, history: seq<Event>, t: real) {
    Tripped(threshold, history) && LastFailure(history).Some? ==> t - LastFailure(history).value >= timeout
  }

  /** The position just after the last success or reset. */
  function Cut(history: seq<Event>): (c: nat)
    ensures c <= |history|
  {
    if history == [] then 0
    else if Clears(history[|history| - 1]) then |history|
    else Cut(history[..|history| - 1])
  }

  function CountFailed(events: seq<Event>): nat {
    if events == [] then 0
    else CountFailed(events[..|events| - 1]) + if events[|events| - 1].Failed? then 1 else 0
  }

  /** The cut is the last clearing event, and the failures are counted from there on. */
  lemma {:induction false} FailuresAreCountedFromTheCut(history: seq<Event>)
    ensures Failures(history) == CountFailed(history[Cut(history)..])
    ensures Cut(history) > 0 ==> Clears(history[Cut(history) - 1])
    ensures forall i :: Cut(history) <= i < |history| ==> !Clears(history[i])
  {
    if history != [] {
      var n := |history| - 1;
      FailuresAreCountedFromTheCut(history[..n]);
      var c := Cut(history);
      if c <= n {
        assert history[c..][..n - c] == history[..n][c..];
      } else {
        assert history[c..] == [];
      }
    }
  }

  lemma {:induction false} FailuresHaveALast(history: seq<Event>)
    ensures Failures(history) > 0 ==> LastFailure(history).Some?
  {
    if history != [] { FailuresHaveALast(history[..|history| - 1]); }
  }

  lemma {:induction false} AskingChangesNothing(history: seq<Event>, t: real)
    ensures Failures(history + [Asked(t)]) == Failures(history)
    ensures LastFailure(history + [Asked(t)]) == LastFailure(history)
  {
    assert (history + [Asked(t)])[..|history|] == history;
  }

  /** Once admitted, requests stay admitted as time passes, whatever is asked meanwhile. */
  lemma {:induction false} AdmissionLasts(threshold: int, timeout: real, history: seq<Event>, asks: seq<real>, t: real, u: real)
    requires Admits(threshold, timeout, history, t) && t <= u
    ensures Admits(threshold, timeout, history + Asks(asks), u)
  {
    AsksChangeNothing(history, asks);
  }

  function Asks(times: seq<real>): seq<Event> {
    if times == [] then [] else Asks(times[..|times| - 1]) + [Asked(times[|times| - 1])]
  }

  lemma {:induction false} AsksChangeNothing(history: seq<Event>, times: seq<real>)
    ensures Failures(history + Asks(times)) == Failures(history)
    ensures LastFailure(history + Asks(times)) == LastFailure(history)
  {
    if times == [] {
      assert history + [] == history;
    } else {
      var n := |times| - 1;
      AsksChangeNothing(history, times[..n]);
      AskingChangesNothing(history + Asks(times[..n]), times[n]);
      assert history + Asks(times) == (history + Asks(times[..n])) + [Asked(times[n])];
    }
  }

  /** The delay a refusal names. */
  function RetryAfter(timeout: real, history: seq<Event>, t: real): real {
    match LastFailure(history)
    case None => timeout
    case Some(at) => timeout - (t - at)
  }

  /** A refusal's delay is positive, and it is exact: before it has passed every request is
      refused, and after it, with only requests in between, every request is admitted. */
  lemma {:induction false} RetryAfterIsExact(threshold: int, timeout: real, history: seq<Event>, t: real, asks: seq<real>, u: real)
    requires !Admits(threshold, timeout, history, t)
    ensures RetryAfter(timeout, history, t) > 0.0
    ensures Admits(threshold, timeout, history + Asks(asks), u) <==> u >= t + RetryAfter(timeout, history, t)
  {
    AsksChangeNothing(history, asks);
  }

  // ----- the class -----

  datatype BreakerState = Closed | Open | HalfOpen

  datatype Verdict = Admitted | Refused(retryAfter: real)

  class CircuitBreaker {
    const failureThreshold: int
    const recoveryTimeout: real
    var state: BreakerState
    var failureCount: nat
    var openedAt: Option<real>
    ghost var history: seq<Event>
    ghost var clock: real

    /** The fields are a function of the history, except that an open breaker turns half open
        only when it is asked. */
    ghost predicate Valid()
      reads this
    {
      && failureCount == Failures(history)
      && (state != Closed <==> Tripped(failureThreshold, history))
      && openedAt == (if Tripped(failureThreshold, history) then LastFailure(history) else None)
      && (openedAt.Some? ==> openedAt.value <= clock)
      && (state == HalfOpen ==> openedAt.Some? && clock - openedAt.value >= recoveryTimeout)
    }

    constructor (failureThreshold: int, recoveryTimeout: real, ghost now: real)
      ensures Valid() && history == [] && clock == now
      ensures this.failureThreshold == failureThreshold && this.recoveryTimeout == recoveryTimeout
    {
      this.failureThreshold := failureThreshold;
      this.recoveryTimeout := recoveryTimeout;
      state, failureCount, openedAt := Closed, 0, None;
      history, clock := [], now;
    }

    method TransitionIfRecoverable(now: real)
      requires Valid() && clock <= now
      modifies this
      ensures Valid() && clock == now && history == old(history) + [Asked(now)]
      ensures failureCount == old(failureCount) && openedAt == old(openedAt)
      ensures state == Open <==> !Admits(failureThreshold, recoveryTimeout, old(history), now)
    {
      AskingChangesNothing(history, now);
      FailuresHaveALast(history);
      history, clock := history + [Asked(now)], now;
      if state != Open || openedAt == None {
        return;
      }
      if now - openedAt.value >= recoveryTimeout {
        state := HalfOpen;
      }
    }

    /** The state property: open exactly when a request would be refused. */
    method State(now: real) returns (s: BreakerState)
      requires Valid() && clock <= now
      modifies this
      ensures Valid() && clock == now && history == old(history) + [Asked(now)]
      ensures s == state
      ensures s == Open <==> !Admits(failureThreshold, recoveryTimeout, old(history), now)
      ensures s == Closed <==> !Tripped(failureThreshold, old(history))
    {
      AskingChangesNothing(history, now);
      TransitionIfRecoverable(now);
      s := state;
    }

    /** Admits or refuses as the history says, with a delay in (0, timeout] when it refuses. */
    method BeforeRequest(now: real) returns (v: Verdict)
      requires Valid() && clock <= now
      modifies this
      ensures Valid() && clock == now && history == old(history) + [Asked(now)]
      ensures v.Admitted? <==> Admits(failureThreshold, recoveryTimeout, old(history), now)
      ensures v.Refused? ==>
        v.retryAfter == RetryAfter(recoveryTimeout, old(history), now) && 0.0 < v.retryAfter <= recoveryTimeout
    {
      AskingChangesNothing(history, now);
      FailuresHaveALast(history);
      TransitionIfRecoverable(now);
      if state == Open {
        var retryAfter := recoveryTimeout;
        if openedAt.Some? {
          retryAfter := MaxReal(0.0, recoveryTimeout - (now - openedAt.value));
        }
        return Refused(retryAfter);
      }
      return Admitted;
    }

    method RecordSuccess(ghost now: real)
      requires Valid() && clock <= now
      modifies this
      ensures Valid() && clock == now && history == old(history) + [Succeeded(now)]
      ensures state == Closed && failureCount == 0 && openedAt == None
    {
      history, clock := history + [Succeeded(now)], now;
      state, failureCount, openedAt := Closed, 0, None;
    }

    method RecordFailure(now: real)
      requires Valid() && clock <= now
      modifies this
      ensures Valid() && clock == now && history == old(history) + [Failed(now)]
      ensures failureCount == old(failureCount) + 1
      ensures failureCount >= failureThreshold ==> state == Open && openedAt == Some(now)
      ensures failureCount < failureThreshold ==> state == old(state) && openedAt == old(openedAt)
    {
      assert (history + [Failed(now)])[..|history|] == history;
      history, clock := history + [Failed(now)], now;
      failureCount := failureCount + 1;
      if failureCount >= failureThreshold {
        state, openedAt := Open, Some(now);
      }
    }

    method Reset(ghost now: real)
      requires Valid() && clock <= now
      modifies this
      ensures Valid() && clock == now && history == old(history) + [WasReset(now)]
      ensures state == Closed && failureCount == 0 && openedAt == None
    {
      history, clock := history + [WasReset(now)], now;
      state, failureCount, openedAt := Closed, 0, None;
    }
  }

  function MaxReal(x: real, y: real): real { if x >= y then x else y }

  /** The two ends together: a caller who waits as long as it was told is let in. */
  method AskWaitAsk(b: CircuitBreaker, now: real) returns (first: Verdict, second: Verdict)
    requires b.Valid() && b.clock <= now
    modifies b
    ensures b.Valid()
    ensures second.Admitted?
  {
    first := b.BeforeRequest(now);
    second := first;
    if first.Refused? {
      ghost var before := b.history[..|b.history| - 1];
      RetryAfterIsExact(b.failureThreshold, b.recoveryTimeout, before, now, [now], now + first.retryAfter);
      assert Asks([now]) == [Asked(now)];
      second := b.BeforeRequest(now + first.retryAfter);
    }
  }
}
