/** The circuit breaker's counters against the log of results they summarise, what a run of guarded calls may
    do, and bounded retries. Times are readings of one monotonic clock. */
module Resilience {
  import opened Common

  // ---------------------------------------------------------------- log and counters

  datatype Entry = Entry(time: real, ok: bool)

  datatype State = Closed | Open | HalfOpen

  datatype Breaker = Breaker(failures: nat, openedAt: Option<real>, lastSuccess: Option<real>, lastFailure: Option<real>) {
    function State(reset: real, now: real): State {
      if openedAt.None? then Closed else if now - openedAt.value >= reset then HalfOpen else Open
    }
  }

  const NEW_BREAKER := Breaker(0, None, None, None)

  /** One recorded result. */
  function Note(threshold: nat, b: Breaker, e: Entry): Breaker {
    if e.ok then Breaker(0, None, Some(e.time), b.lastFailure)
    else Breaker(b.failures + 1, if b.failures + 1 >= threshold then Some(e.time) else b.openedAt, b.lastSuccess, Some(e.time))
  }

  function Replay(threshold: nat, log: seq<Entry>): Breaker {
    if log == [] then NEW_BREAKER else Note(threshold, Replay(threshold, log[..|log| - 1]), log[|log| - 1])
  }

  /** The last `threshold` results are all failures. */
  predicate Tripped(threshold: nat, log: seq<Entry>) {
    |log| >= threshold && forall i :: |log| - threshold <= i < |log| ==> !log[i].ok
  }

  /** Tripped, and the last failure is less than `reset` ago. */
  predicate Blocking(threshold: nat, reset: real, log: seq<Entry>, now: real) {
    threshold > 0 && Tripped(threshold, log) && now - log[|log| - 1].time < reset
  }

  /** `time` is the last entry with this outcome, if there is one. */
  ghost predicate IsLast(log: seq<Entry>, ok: bool, time: Option<real>) {
    match time
    case None => forall i :: 0 <= i < |log| ==> log[i].ok != ok
    case Some(t) => exists k :: 0 <= k < |log| && log[k] == Entry(t, ok) && forall i :: k < i < |log| ==> log[i].ok != ok
  }

  /** The counters say of the log: how many results have failed since the last success, whether and since when
      the last `threshold` failed, and when the last success and failure were. */
  lemma {:induction false} CountersAreLog(threshold: nat, log: seq<Entry>)
    requires threshold > 0
    ensures var b := Replay(threshold, log);
      && b.failures <= |log|
      && (forall i :: |log| - b.failures <= i < |log| ==> !log[i].ok)
      && (b.failures < |log| ==> log[|log| - b.failures - 1].ok)
      && b.openedAt == (if Tripped(threshold, log) then Some(log[|log| - 1].time) else None)
      && IsLast(log, true, b.lastSuccess) && IsLast(log, false, b.lastFailure)
    decreases |log|
  {
    if log != [] {
      var n := |log| - 1;
      var before, e := log[..n], log[n];
      CountersAreLog(threshold, before);
      var b := Replay(threshold, before);
      LastExtends(before, e, true, b.lastSuccess);
      LastExtends(before, e, false, b.lastFailure);
      assert log == before + [e];
    }
  }

  lemma LastExtends(log: seq<Entry>, e: Entry, ok: bool, time: Option<real>)
    requires IsLast(log, ok, time)
    ensures IsLast(log + [e], ok, if e.ok == ok then Some(e.time) else time)
  {
    var more := log + [e];
    if e.ok == ok {
      assert more[|log|] == Entry(e.time, ok);
    } else if time.Some? {
      var k :| 0 <= k < |log| && log[k] == Entry(time.value, ok) && forall i :: k < i < |log| ==> log[i].ok != ok;
      assert more[k] == log[k];
    }
  }

  /** Calls are refused exactly while the log blocks. */
  lemma StateIsLog(threshold: nat, reset: real, log: seq<Entry>, now: real)
    requires threshold > 0
    ensures var state := Replay(threshold, log).State(reset, now);
      && (state == Open <==> Blocking(threshold, reset, log, now))
      && (state == Closed <==> !Tripped(threshold, log))
  {
    CountersAreLog(threshold, log);
  }

  datatype Ending = Good | Bad | Cancelled

  function Recorded(time: real, ending: Ending): seq<Entry> {
    match ending
    case Good => [Entry(time, true)]
    case Bad => [Entry(time, false)]
    case Cancelled => []
  }

  class CircuitBreaker {
    const threshold: nat
    const reset: real
    var failures: nat
    var openedAt: Option<real>
    var lastSuccess: Option<real>
    var lastFailure: Option<real>
    ghost var log: seq<Entry>

    ghost predicate Valid()
      reads this
    {
      threshold > 0 && reset > 0.0 && Breaker(failures, openedAt, lastSuccess, lastFailure) == Replay(threshold, log)
    }

    constructor (threshold: nat, reset: real)
      requires threshold > 0 && reset > 0.0
      ensures Valid() && log == [] && this.threshold == threshold && this.reset == reset
    {
      this.threshold, this.reset := threshold, reset;
      failures, openedAt, lastSuccess, lastFailure, log := 0, None, None, None, [];
    }

    method RecordSuccess(now: real)
      requires Valid()
      modifies this
      ensures Valid() && log == old(log) + [Entry(now, true)]
    {
      failures, openedAt, lastSuccess := 0, None, Some(now);
      log := log + [Entry(now, true)];
      assert log[..|log| - 1] == old(log);
    }

    method RecordFailure(now: real)
      requires Valid()
      modifies this
      ensures Valid() && log == old(log) + [Entry(now, false)]
    {
      failures, lastFailure := failures + 1, Some(now);
      if failures >= threshold { openedAt := lastFailure; }
      log := log + [Entry(now, false)];
      assert log[..|log| - 1] == old(log);
    }

    method CurrentState(now: real) returns (state: State)
      requires Valid()
      ensures state == Open <==> Blocking(threshold, reset, log, now)
      ensures state == Closed <==> !Tripped(threshold, log)
    {
      StateIsLog(threshold, reset, log, now);
      if openedAt.None? { return Closed; }
      return if now - openedAt.value >= reset then HalfOpen else Open;
    }

    /** What other callers record while an operation is awaited. */
    method RecordOthers(results: seq<Entry>)
      requires Valid()
      modifies this
      ensures Valid() && log == old(log) + results
    {
      for i := 0 to |results|
        invariant Valid() && log == old(log) + results[..i]
      {
        assert results[..i + 1] == results[..i] + [results[i]];
        if results[i].ok { RecordSuccess(results[i].time); } else { RecordFailure(results[i].time); }
      }
    }

    /** The operation, if it is run, ends at `ended` after others have recorded `meanwhile`; a cancelled one
        records nothing. */
    method Call(now: real, meanwhile: seq<Entry>, ended: real, ending: Ending) returns (ran: bool)
      requires Valid()
      modifies this
      ensures Valid() && ran == !Blocking(threshold, reset, old(log), now)
      ensures log == if ran then old(log) + meanwhile + Recorded(ended, ending) else old(log)
    {
      var state := CurrentState(now);
      if state == Open { return false; }
      RecordOthers(meanwhile);
      match ending {
        case Good => RecordSuccess(ended);
        case Bad => RecordFailure(ended);
        case Cancelled =>
      }
      return true;
    }
  }

  // ---------------------------------------------------------------- runs of many calls on many paths

  /** Calls on several paths, their beginnings and ends interleaved in any way. */
  datatype Event<K> = Begun(key: K, time: real) | Ended(key: K, time: real, ok: bool)

  function Results<K(==)>(trace: seq<Event<K>>, key: K): seq<Entry> {
    if trace == [] then []
    else
      var last := trace[|trace| - 1];
      Results(trace[..|trace| - 1], key) + (if last.Ended? && last.key == key then [Entry(last.time, last.ok)] else [])
  }

  ghost predicate Monotonic<K>(trace: seq<Event<K>>) {
    forall i, j :: 0 <= i <= j < |trace| ==> trace[i].time <= trace[j].time
  }

  /** Every call began when its path's breaker let it. */
  ghost predicate Guarded<K>(threshold: nat, reset: real, trace: seq<Event<K>>) {
    forall i :: 0 <= i < |trace| && trace[i].Begun? ==>
      !Blocking(threshold, reset, Results(trace[..i], trace[i].key), trace[i].time)
  }

  lemma {:induction false} ResultsExtend<K>(trace: seq<Event<K>>, i: nat, key: K)
    requires i <= |trace|
    ensures Results(trace[..i], key) <= Results(trace, key)
    ensures forall k :: |Results(trace[..i], key)| <= k < |Results(trace, key)| ==>
      exists m :: i <= m < |trace| && trace[m] == Ended(key, Results(trace, key)[k].time, Results(trace, key)[k].ok)
    decreases |trace| - i
  {
    if i == |trace| {
      assert trace[..i] == trace;
    } else {
      var n := |trace| - 1;
      var before := trace[..n];
      ResultsExtend(before, i, key);
      assert before[..i] == trace[..i];
      var results := Results(trace, key);
      forall k | |Results(trace[..i], key)| <= k < |results|
        ensures exists m :: i <= m < |trace| && trace[m] == Ended(key, results[k].time, results[k].ok)
      {
        if k < |Results(before, key)| {
          var m :| i <= m < n && before[m] == Ended(key, results[k].time, results[k].ok);
          assert trace[m] == before[m];
        } else {
          assert trace[n] == Ended(key, results[k].time, results[k].ok);
        }
      }
    }
  }

  /** After a failure that completes `threshold` failures in a row, no call on that path begins within `reset`,
      until one that was already under way succeeds; other paths do not matter. */
  lemma QuietAfterTrip<K>(threshold: nat, reset: real, trace: seq<Event<K>>, i: nat, j: nat)
    requires threshold > 0 && Guarded(threshold, reset, trace) && Monotonic(trace)
    requires i < j < |trace| && trace[i].Ended? && !trace[i].ok && trace[j].Begun? && trace[j].key == trace[i].key
    requires Tripped(threshold, Results(trace[..i + 1], trace[i].key))
    requires forall m :: i < m < j && trace[m].Ended? && trace[m].key == trace[i].key ==> !trace[m].ok
    ensures trace[j].time >= trace[i].time + reset
  {
    var key, head := trace[i].key, trace[..j];
    var early, late := Results(trace[..i + 1], key), Results(head, key);
    ResultsExtend(head, i + 1, key);
    assert head[..i + 1] == trace[..i + 1];
    assert trace[..i + 1][..i] == trace[..i];
    assert early[|early| - 1] == Entry(trace[i].time, false);
    forall k | |early| <= k < |late| ensures !late[k].ok && late[k].time >= trace[i].time {
      var m :| i + 1 <= m < j && head[m] == Ended(key, late[k].time, late[k].ok);
      assert trace[m] == head[m];
    }
    assert Tripped(threshold, late);
    assert late[|late| - 1].time >= trace[i].time;
  }

  // ---------------------------------------------------------------- bounded retries

  datatype RetryPolicy = RetryPolicy(maxAttempts: nat, baseDelay: real, maxDelay: real, factor: real, jitter: real) {
    predicate Valid() { maxAttempts > 0 && baseDelay >= 0.0 && maxDelay >= 0.0 && factor >= 1.0 && jitter >= 0.0 }
  }

  function Power(x: real, n: nat): real { if n == 0 then 1.0 else x * Power(x, n - 1) }

  function Capped(p: RetryPolicy, attempt: nat): real
    requires attempt > 0
  {
    var raw := p.baseDelay * Power(p.factor, attempt - 1);
    if raw < p.maxDelay then raw else p.maxDelay
  }

  /** `random` is the draw from [0, 1). */
  function DelayFor(p: RetryPolicy, attempt: nat, random: real): real
    requires attempt > 0
  {
    Capped(p, attempt) + random * p.jitter * Capped(p, attempt)
  }

  lemma MulMonotone(x: real, y: real, z: real)
    requires x <= y && z >= 0.0
    ensures z * x <= z * y
  {
  }

  lemma {:induction false} PowerGrows(x: real, n: nat)
    requires x >= 1.0
    ensures 1.0 <= Power(x, n) <= Power(x, n + 1)
  {
    if n > 0 { PowerGrows(x, n - 1); }
    MulMonotone(1.0, x, Power(x, n));
  }

  lemma CappedBounds(p: RetryPolicy, attempt: nat)
    requires p.Valid() && attempt > 0
    ensures 0.0 <= Capped(p, attempt) <= Capped(p, attempt + 1) <= p.maxDelay
  {
    PowerGrows(p.factor, attempt - 1);
    MulMonotone(Power(p.factor, attempt - 1), Power(p.factor, attempt), p.baseDelay);
    MulMonotone(0.0, Power(p.factor, attempt - 1), p.baseDelay);
  }

  lemma JitterBounds(c: real, most: real, jitter: real, random: real)
    requires 0.0 <= c <= most && 0.0 <= jitter && 0.0 <= random < 1.0
    ensures 0.0 <= random * jitter * c <= jitter * most
  {
    MulMonotone(c, most, jitter);
    MulMonotone(0.0, c, jitter);
    var d := jitter * c;
    MulMonotone(random, 1.0, d);
    MulMonotone(0.0, random, d);
    assert random * jitter * c == d * random;
  }

  /** Without jitter the delay never shrinks from one attempt to the next and never exceeds the maximum; jitter
      adds at most its fraction. */
  lemma DelayBounds(p: RetryPolicy, attempt: nat, random: real)
    requires p.Valid() && attempt > 0 && 0.0 <= random < 1.0
    ensures 0.0 <= Capped(p, attempt) <= Capped(p, attempt + 1) <= p.maxDelay
    ensures Capped(p, attempt) <= DelayFor(p, attempt, random) <= Capped(p, attempt) + p.jitter * p.maxDelay
  {
    CappedBounds(p, attempt);
    JitterBounds(Capped(p, attempt), p.maxDelay, p.jitter, random);
  }

  /** The first delay is the base delay, and each further one the factor times the one before, up to the maximum; the
      draw adds its share of the jitter. */
  lemma DelaysMultiply(p: RetryPolicy, attempt: nat, random: real)
    requires p.Valid() && attempt > 0
    ensures DelayFor(p, 1, 0.0) == if p.baseDelay < p.maxDelay then p.baseDelay else p.maxDelay
    ensures var next := p.factor * DelayFor(p, attempt, 0.0);
      DelayFor(p, attempt + 1, 0.0) == if next < p.maxDelay then next else p.maxDelay
    ensures DelayFor(p, attempt, random) == DelayFor(p, attempt, 0.0) * (1.0 + random * p.jitter)
  {
    assert p.baseDelay * Power(p.factor, 0) == p.baseDelay;
    CappedBounds(p, attempt);
    NoDraw(p.jitter, Capped(p, attempt));
    NoDraw(p.jitter, Capped(p, attempt + 1));
    NoDraw(p.jitter, Capped(p, 1));
    NextRaw(p.baseDelay, p.factor, Power(p.factor, attempt - 1));
    if p.baseDelay * Power(p.factor, attempt - 1) >= p.maxDelay {
      MulMonotone(1.0, p.factor, p.maxDelay);
      MulMonotone(p.maxDelay, p.baseDelay * Power(p.factor, attempt - 1), p.factor);
    }
    Distribute(Capped(p, attempt), random * p.jitter);
  }

  lemma NoDraw(jitter: real, c: real)
    ensures 0.0 * jitter * c == 0.0
  {
  }

  lemma NextRaw(x: real, factor: real, power: real)
    ensures x * (factor * power) == factor * (x * power)
  {
  }

  lemma Distribute(c: real, share: real)
    ensures c + share * c == c * (1.0 + share)
  {
  }

  datatype Attempt = Succeeds | FailsRetryably | FailsFatally

  /** The operation's outcome on each attempt, counted from one. The result is the attempt that ended the call. */
  method RetryWithBackoff(p: RetryPolicy, operation: nat -> Attempt, random: nat -> real)
    returns (last: nat, ok: bool, slept: seq<real>)
    requires p.Valid()
    ensures 1 <= last <= p.maxAttempts
    ensures forall a :: 1 <= a < last ==> operation(a) == FailsRetryably
    ensures ok <==> operation(last) == Succeeds
    ensures last < p.maxAttempts ==> operation(last) != FailsRetryably
    ensures slept == seq(last - 1, i requires 0 <= i < last - 1 => DelayFor(p, i + 1, random(i + 1)))
  {
    slept := [];
    for attempt := 1 to p.maxAttempts + 1
      invariant attempt <= p.maxAttempts && forall a :: 1 <= a < attempt ==> operation(a) == FailsRetryably
      invariant slept == seq(attempt - 1, i requires 0 <= i < attempt - 1 => DelayFor(p, i + 1, random(i + 1)))
    {
      match operation(attempt)
      case Succeeds => return attempt, true, slept;
      case FailsFatally => return attempt, false, slept;
      case FailsRetryably =>
        if attempt >= p.maxAttempts { return attempt, false, slept; }
        slept := slept + [DelayFor(p, attempt, random(attempt))];
    }
    assert false;
  }
}
