/** The per-minute and minimum-delay limits, over whole runs, with the Redis key lifetimes in the model.
    `lag` bounds how far the wall clock read before the lock may be behind the server inside it. */
module WorkloadRates {
  import opened Workload

  predicate Timely(lag: real, s: System, step: Step) {
    && s.clock <= step.clock
    && (step.TryAcquire? ==> 0.0 <= step.now <= step.clock <= step.now + lag)
  }

  ghost predicate AllTimely(cfg: Config, lag: real, s: System, steps: seq<Step>)
    decreases |steps|
  {
    steps != [] ==> Timely(lag, s, steps[0]) && AllTimely(cfg, lag, Apply(cfg, s, steps[0]), steps[1..])
  }

  predicate SamePath(entry: LogEntry, endpoint: string, role: Role) {
    entry.request.endpoint == endpoint && entry.request.role == role
  }

  /** Grants of one endpoint and role in one calendar minute. */
  function Recorded(log: seq<LogEntry>, endpoint: string, role: Role, minute: int): nat {
    if log == [] then 0
    else
      var last := log[|log| - 1];
      Recorded(log[..|log| - 1], endpoint, role, minute)
      + (if SamePath(last, endpoint, role) && Minute(last.now) == minute then 1 else 0)
  }

  /** Grants of one endpoint and role in the 60 seconds from `start`. */
  function InWindow(log: seq<LogEntry>, endpoint: string, role: Role, start: real): nat {
    if log == [] then 0
    else
      var last := log[|log| - 1];
      InWindow(log[..|log| - 1], endpoint, role, start)
      + (if SamePath(last, endpoint, role) && start <= last.now < start + 60.0 then 1 else 0)
  }

  // ---------------------------------------------------------------- requests per minute

  ghost predicate CounterMatches(cfg: Config, s: System, endpoint: string, role: Role, minute: int) {
    var key := (endpoint, role, minute);
    var n := Recorded(s.log, endpoint, role, minute);
    && n <= cfg.rpm.Get(role)
    && (key in s.store.rpm <==> n > 0)
    && (n > 0 ==> s.store.rpm[key].value == n && s.store.rpm[key].expiresAt >= minute as real * 60.0 + RATE_KEY_SECONDS)
  }

  ghost predicate CountersMatch(cfg: Config, s: System) {
    forall endpoint: string, role: Role, minute: int | cfg.rpm.Get(role) > 0 ::
      CounterMatches(cfg, s, endpoint, role, minute)
  }

  lemma MinuteBounds(now: real)
    ensures Minute(now) as real * 60.0 <= now < Minute(now) as real * 60.0 + 60.0
  {
    var m := now / 60.0;
    assert m.Floor as real <= m < m.Floor as real + 1.0;
  }

  lemma GrantKeepsCounter(cfg: Config, lag: real, s: System, step: Step, endpoint: string, role: Role, minute: int)
    requires CountersMatch(cfg, s) && Timely(lag, s, step) && lag <= 60.0
    requires Grants(cfg, s, step) && cfg.rpm.Get(role) > 0
    ensures CounterMatches(cfg, Apply(cfg, s, step), endpoint, role, minute)
  {
    var s' := Apply(cfg, s, step);
    assert s'.log[..|s.log|] == s.log;
    assert CounterMatches(cfg, s, endpoint, role, minute);
    var key := (endpoint, role, minute);
    if key == (step.r.endpoint, step.r.role, Minute(step.now)) {
      MinuteBounds(step.now);
      // a counter of the current minute cannot have expired yet
      assert key in s.store.rpm ==> step.clock < s.store.rpm[key].expiresAt;
    }
  }

  lemma StepKeepsCounters(cfg: Config, lag: real, s: System, step: Step)
    requires CountersMatch(cfg, s) && Timely(lag, s, step) && lag <= 60.0
    ensures CountersMatch(cfg, Apply(cfg, s, step))
  {
    var s' := Apply(cfg, s, step);
    if Grants(cfg, s, step) {
      forall endpoint: string, role: Role, minute: int | cfg.rpm.Get(role) > 0
        ensures CounterMatches(cfg, s', endpoint, role, minute)
      {
        GrantKeepsCounter(cfg, lag, s, step, endpoint, role, minute);
      }
    } else {
      assert s'.log == s.log && s'.store.rpm == s.store.rpm;
      forall endpoint: string, role: Role, minute: int | cfg.rpm.Get(role) > 0
        ensures CounterMatches(cfg, s', endpoint, role, minute)
      {
        assert CounterMatches(cfg, s, endpoint, role, minute);
      }
    }
  }

  lemma {:induction false} RunKeepsCounters(cfg: Config, lag: real, s: System, steps: seq<Step>)
    requires CountersMatch(cfg, s) && AllTimely(cfg, lag, s, steps) && lag <= 60.0
    ensures CountersMatch(cfg, Exec(cfg, s, steps))
    decreases |steps|
  {
    if steps != [] {
      StepKeepsCounters(cfg, lag, s, steps[0]);
      RunKeepsCounters(cfg, lag, Apply(cfg, s, steps[0]), steps[1..]);
    }
  }

  lemma {:induction false} WindowInTwoMinutes(log: seq<LogEntry>, endpoint: string, role: Role, start: real)
    ensures InWindow(log, endpoint, role, start)
         <= Recorded(log, endpoint, role, Minute(start)) + Recorded(log, endpoint, role, Minute(start) + 1)
  {
    if log != [] {
      var last := log[|log| - 1];
      WindowInTwoMinutes(log[..|log| - 1], endpoint, role, start);
      MinuteBounds(start);
      MinuteBounds(last.now);
    }
  }

  /** At most rpm grants in a calendar minute, and at most twice that in any 60 seconds. */
  lemma RatePerMinute(cfg: Config, lag: real, steps: seq<Step>, endpoint: string, role: Role, minute: int, start: real)
    requires lag <= 60.0 && AllTimely(cfg, lag, START, steps)
    requires cfg.rpm.Get(role) > 0
    ensures Recorded(Exec(cfg, START, steps).log, endpoint, role, minute) <= cfg.rpm.Get(role)
    ensures InWindow(Exec(cfg, START, steps).log, endpoint, role, start) <= 2 * cfg.rpm.Get(role)
  {
    RunKeepsCounters(cfg, lag, START, steps);
    var s := Exec(cfg, START, steps);
    WindowInTwoMinutes(s.log, endpoint, role, start);
    assert CounterMatches(cfg, s, endpoint, role, minute);
    assert CounterMatches(cfg, s, endpoint, role, Minute(start));
    assert CounterMatches(cfg, s, endpoint, role, Minute(start) + 1);
  }

  // ---------------------------------------------------------------- minimum delay

  predicate Delayed(cfg: Config, entry: LogEntry) {
    cfg.minDelay.Get(entry.request.role) > 0.0
  }

  function PathKey(entry: LogEntry): (string, Role) {
    (entry.request.endpoint, entry.request.role)
  }

  /** The delay limits the keys can enforce. */
  predicate DelaysCovered(cfg: Config, lag: real) {
    forall role: Role :: cfg.minDelay.Get(role) <= RATE_KEY_SECONDS - lag
  }

  ghost predicate Spaced(cfg: Config, log: seq<LogEntry>) {
    forall i, j :: 0 <= i < j < |log| && Delayed(cfg, log[j]) && PathKey(log[i]) == PathKey(log[j]) ==>
      log[j].now - log[i].now >= cfg.minDelay.Get(log[j].request.role)
  }

  ghost predicate LastRequestsMatch(cfg: Config, s: System) {
    && (forall i :: 0 <= i < |s.log| && Delayed(cfg, s.log[i]) ==>
          PathKey(s.log[i]) in s.store.lastRequest && s.log[i].now <= s.store.lastRequest[PathKey(s.log[i])].value)
    && (forall key <- s.store.lastRequest ::
          s.store.lastRequest[key].expiresAt >= s.store.lastRequest[key].value + RATE_KEY_SECONDS)
  }

  lemma StepKeepsSpacing(cfg: Config, lag: real, s: System, step: Step)
    requires Spaced(cfg, s.log) && LastRequestsMatch(cfg, s)
    requires Timely(lag, s, step) && DelaysCovered(cfg, lag)
    ensures Spaced(cfg, Apply(cfg, s, step).log) && LastRequestsMatch(cfg, Apply(cfg, s, step))
  {
    var s' := Apply(cfg, s, step);
    if Grants(cfg, s, step) {
      var n := |s.log|;
      var entry := s'.log[n];
      assert entry == LogEntry(step.r, step.now, step.clock);
      assert forall i :: 0 <= i < n ==> s'.log[i] == s.log[i];
      if Delayed(cfg, entry) {
        var key := PathKey(entry);
        assert key in s.store.lastRequest ==>
          step.now - s.store.lastRequest[key].value >= cfg.minDelay.Get(step.r.role);
      }
    } else {
      assert s'.log == s.log && s'.store.lastRequest == s.store.lastRequest;
    }
  }

  lemma {:induction false} RunKeepsSpacing(cfg: Config, lag: real, s: System, steps: seq<Step>)
    requires Spaced(cfg, s.log) && LastRequestsMatch(cfg, s)
    requires AllTimely(cfg, lag, s, steps) && DelaysCovered(cfg, lag)
    ensures Spaced(cfg, Exec(cfg, s, steps).log)
    decreases |steps|
  {
    if steps != [] {
      StepKeepsSpacing(cfg, lag, s, steps[0]);
      RunKeepsSpacing(cfg, lag, Apply(cfg, s, steps[0]), steps[1..]);
    }
  }

  /** Any two grants of one endpoint and role are at least the configured delay apart. */
  lemma MinimumDelay(cfg: Config, lag: real, steps: seq<Step>)
    requires AllTimely(cfg, lag, START, steps) && DelaysCovered(cfg, lag)
    ensures Spaced(cfg, Exec(cfg, START, steps).log)
  {
    RunKeepsSpacing(cfg, lag, START, steps);
  }

  function Min(a: real, b: real): real { if a < b then a else b }

  /** What the code really enforces: the key is gone after 120 seconds, so the next request waits
      exactly min(delay, 120), whatever larger delay is configured. */
  lemma EnforcedDelay(cfg: Config, st: Store, r: Request, next: Request, now: real, later: real)
    requires next.endpoint == r.endpoint && next.role == r.role
    requires cfg.rpm.Get(r.role) == 0 && 0.0 < cfg.minDelay.Get(r.role) <= later && now <= later
    ensures RateLimitAllows(cfg, RecordGrant(cfg, st, r, now, now), next, later, later)
      <==> later - now >= Min(cfg.minDelay.Get(r.role), RATE_KEY_SECONDS)
  {
    var key := (next.endpoint, next.role);
    var st' := RecordGrant(cfg, st, r, now, now);
    assert st'.lastRequest[key] == Timed(now, now + RATE_KEY_SECONDS);
  }
}
