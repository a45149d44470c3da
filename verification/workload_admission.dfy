/** Who is let in and who is not, said of the leases, the queue and the log of grants: the slots reserved for live
    work, and the only reasons for which a request is refused, kept waiting or dropped. */
module WorkloadAdmission {
  import opened Workload
  import opened WorkloadSafety
  import opened WorkloadRates

  /** Leases that have not run out. */
  function Live(s: System, now: real): set<Request> {
    set r | r in s.store.active && s.store.active[r] > now
  }

  /** Queued for no longer than a minute and than twice the wait timeout. */
  predicate Recent(cfg: Config, r: Request, now: real) {
    now - r.enqueuedAt <= 60.0 || now - r.enqueuedAt <= cfg.waitTimeout * 2.0
  }

  function Waiting(cfg: Config, s: System, now: real): set<Request> {
    set r | r in s.store.queue && Recent(cfg, r, now)
  }

  lemma CleanupLeaves(cfg: Config, s: System, now: real)
    ensures Cleanup(cfg, s.store, now).active.Keys == Live(s, now)
    ensures Cleanup(cfg, s.store, now).queue == Waiting(cfg, s, now)
    ensures Cleanup(cfg, s.store, now).rpm == s.store.rpm && Cleanup(cfg, s.store, now).lastRequest == s.store.lastRequest
    ensures Cleanup(cfg, s.store, now).lastGrant == s.store.lastGrant
  {
  }

  // ---------------------------------------------------------------- the reserve for live work

  lemma OnlyGrantsGrow(cfg: Config, s: System, step: Step)
    requires |Apply(cfg, s, step).log| > |s.log|
    ensures Grants(cfg, s, step)
    ensures Apply(cfg, s, step).log == s.log + [LogEntry(step.r, step.now, step.clock)]
    ensures Apply(cfg, s, step).store.active.Keys == Live(s, step.now) + {step.r}
  {
    if Grants(cfg, s, step) { CleanupLeaves(cfg, s, step.now); }
  }

  lemma LowPriorityLeavesRoom(cfg: Config, s: System, r: Request, now: real, clock: real)
    requires PollGrants(cfg, s.store, r, now, clock) && r.priority >= 4
    ensures |Live(s, now)| + cfg.liveReserved < cfg.globalLimit
  {
    CleanupLeaves(cfg, s, now);
  }

  lemma OneMoreLease(live: set<Request>, r: Request)
    ensures |live + {r}| <= |live| + 1
  {
    assert live + {r} == live + ({r} - live);
    assert |live + {r}| == |live| + |{r} - live|;
    SubsetCard({r} - live, {r});
  }

  /** In every run a grant of backfill or lower priority leaves the reserved slots free, whatever holds the others. */
  lemma ReserveKept(cfg: Config, history: seq<Step>, step: Step)
    requires var s, s' := Exec(cfg, START, history), Apply(cfg, Exec(cfg, START, history), step);
      |s'.log| > |s.log| && s'.log[|s.log|].request.priority >= 4
    ensures |Apply(cfg, Exec(cfg, START, history), step).store.active| + cfg.liveReserved <= cfg.globalLimit
  {
    var s := Exec(cfg, START, history);
    OnlyGrantsGrow(cfg, s, step);
    LowPriorityLeavesRoom(cfg, s, step.r, step.now, step.clock);
    OneMoreLease(Live(s, step.now), step.r);
    KeysAreAll(Apply(cfg, s, step).store.active);
  }

  lemma KeysAreAll<K, V>(m: map<K, V>)
    ensures |m| == |m.Keys|
  {
  }

  // ---------------------------------------------------------------- the log behind the rate keys

  ghost predicate RatesLogged(s: System) {
    && (forall key <- s.store.rpm :: s.store.rpm[key].value <= Recorded(s.log, key.0, key.1, key.2))
    && (forall key <- s.store.lastRequest ::
          exists i :: 0 <= i < |s.log| && PathKey(s.log[i]) == key && s.log[i].now == s.store.lastRequest[key].value)
  }

  lemma RecordedGrows(log: seq<LogEntry>, entry: LogEntry, endpoint: string, role: Role, minute: int)
    ensures Recorded(log + [entry], endpoint, role, minute)
         == Recorded(log, endpoint, role, minute)
            + (if SamePath(entry, endpoint, role) && Minute(entry.now) == minute then 1 else 0)
  {
    assert (log + [entry])[..|log|] == log;
  }

  lemma GrantKeepsLogged(cfg: Config, s: System, step: Step)
    requires RatesLogged(s) && Grants(cfg, s, step)
    ensures RatesLogged(Apply(cfg, s, step))
  {
    var s' := Apply(cfg, s, step);
    var entry := LogEntry(step.r, step.now, step.clock);
    forall key <- s'.store.rpm ensures s'.store.rpm[key].value <= Recorded(s'.log, key.0, key.1, key.2) {
      RecordedGrows(s.log, entry, key.0, key.1, key.2);
    }
    forall key <- s'.store.lastRequest
      ensures exists i :: 0 <= i < |s'.log| && PathKey(s'.log[i]) == key && s'.log[i].now == s'.store.lastRequest[key].value
    {
      if key == PathKey(entry) && cfg.minDelay.Get(step.r.role) > 0.0 {
        assert s'.log[|s.log|] == entry;
      } else {
        var i :| 0 <= i < |s.log| && PathKey(s.log[i]) == key && s.log[i].now == s.store.lastRequest[key].value;
        assert s'.log[i] == s.log[i];
      }
    }
  }

  lemma StepKeepsLogged(cfg: Config, s: System, step: Step)
    requires RatesLogged(s)
    ensures RatesLogged(Apply(cfg, s, step))
  {
    if Grants(cfg, s, step) { GrantKeepsLogged(cfg, s, step); }
  }

  lemma {:induction false} RunKeepsLogged(cfg: Config, s: System, steps: seq<Step>)
    requires RatesLogged(s)
    ensures RatesLogged(Exec(cfg, s, steps))
    decreases |steps|
  {
    if steps != [] {
      StepKeepsLogged(cfg, s, steps[0]);
      RunKeepsLogged(cfg, Apply(cfg, s, steps[0]), steps[1..]);
    }
  }

  // ---------------------------------------------------------------- who is kept waiting

  /** Of the best class, and within it of the account served longest ago and there the oldest. */
  predicate FirstInLine(cfg: Config, s: System, r: Request, now: real, clock: real) {
    && r in Waiting(cfg, s, now)
    && forall q <- Waiting(cfg, s, now) ::
         var mine, other := LastGrant(s.store, r.account, clock), LastGrant(s.store, q.account, clock);
         r.priority < q.priority
         || (r.priority == q.priority && (mine < other || (mine == other && r.sequence <= q.sequence)))
  }

  /** Some lease limit is reached. */
  predicate NoSlot(cfg: Config, s: System, r: Request, now: real) {
    || |Live(s, now)| >= cfg.globalLimit
    || |set q | q in Live(s, now) && q.role == r.role| >= cfg.roleLimit.Get(r.role)
    || |set q | q in Live(s, now) && q.account == r.account| >= cfg.accountLimit
    || (r.priority >= 4 && |Live(s, now)| + cfg.liveReserved >= cfg.globalLimit)
  }

  /** The minute has had its grants, or the last grant is too recent. */
  predicate TooSoon(cfg: Config, s: System, r: Request, now: real) {
    var rpm, delay := cfg.rpm.Get(r.role), cfg.minDelay.Get(r.role);
    || (rpm > 0 && Recorded(s.log, r.endpoint, r.role, Minute(now)) >= rpm)
    || (delay > 0.0 && (now < delay || exists i :: 0 <= i < |s.log| && SamePath(s.log[i], r.endpoint, r.role) && now - s.log[i].now < delay))
  }

  lemma RatesAllow(cfg: Config, s: System, r: Request, now: real, clock: real)
    requires RatesLogged(s) && !TooSoon(cfg, s, r, now)
    ensures RateLimitAllows(cfg, s.store, r, now, clock)
  {
    var key := (r.endpoint, r.role, Minute(now));
    assert key in s.store.rpm ==> s.store.rpm[key].value <= Recorded(s.log, r.endpoint, r.role, Minute(now));
    if (r.endpoint, r.role) in s.store.lastRequest {
      var i :| 0 <= i < |s.log| && PathKey(s.log[i]) == (r.endpoint, r.role)
               && s.log[i].now == s.store.lastRequest[(r.endpoint, r.role)].value;
      assert SamePath(s.log[i], r.endpoint, r.role);
    }
  }

  lemma SameRates(cfg: Config, a: Store, b: Store, r: Request, now: real, clock: real)
    requires a.rpm == b.rpm && a.lastRequest == b.lastRequest
    ensures RateLimitAllows(cfg, a, r, now, clock) == RateLimitAllows(cfg, b, r, now, clock)
  {
  }

  lemma SlotMakesEligible(cfg: Config, s: System, r: Request, now: real, clock: real)
    requires RatesLogged(s) && !TooSoon(cfg, s, r, now) && !NoSlot(cfg, s, r, now)
    ensures Eligible(cfg, Cleanup(cfg, s.store, now), r, now, clock)
  {
    var st := Cleanup(cfg, s.store, now);
    CleanupLeaves(cfg, s, now);
    RatesAllow(cfg, s, r, now, clock);
    SameRates(cfg, st, s.store, r, now, clock);
    assert Members(Live(s, now), OfRole(r.role)) == set q | q in Live(s, now) && q.role == r.role;
    assert Members(Live(s, now), OfAccount(r.account)) == set q | q in Live(s, now) && q.account == r.account;
  }

  /** In every run the first in line is refused only if a lease limit is reached or a rate limit holds. */
  lemma RefusedOnlyForLimits(cfg: Config, history: seq<Step>, r: Request, now: real, clock: real)
    requires var s := Exec(cfg, START, history); r in s.waiting && FirstInLine(cfg, s, r, now, clock)
    ensures var s, s' := Exec(cfg, START, history), Apply(cfg, Exec(cfg, START, history), TryAcquire(r, now, clock));
      s'.log == s.log + [LogEntry(r, now, clock)] || NoSlot(cfg, s, r, now) || TooSoon(cfg, s, r, now)
  {
    var s := Exec(cfg, START, history);
    RunKeepsLogged(cfg, START, history);
    if !NoSlot(cfg, s, r, now) && !TooSoon(cfg, s, r, now) {
      SlotMakesEligible(cfg, s, r, now, clock);
      FirstIsCandidate(cfg, s, r, now, clock);
    }
  }

  lemma FirstIsCandidate(cfg: Config, s: System, r: Request, now: real, clock: real)
    requires FirstInLine(cfg, s, r, now, clock) && Eligible(cfg, Cleanup(cfg, s.store, now), r, now, clock)
    ensures IsCandidate(cfg, Cleanup(cfg, s.store, now), r, now, clock)
  {
    CleanupLeaves(cfg, s, now);
  }

  // ---------------------------------------------------------------- the queue

  /** A caller joins the queue, and waits, exactly when the queue is not full of recent requests. */
  lemma JoinsUnlessFull(cfg: Config, s: System, r: Request, clock: real)
    requires r in s.issued && r !in s.waiting && r !in s.store.queue
    ensures var s' := Apply(cfg, s, EnterQueue(r, clock));
      && (r in s'.waiting <==> |Waiting(cfg, s, r.enqueuedAt)| < cfg.queueMax)
      && (r in s'.store.queue <==> r in s'.waiting) && r !in s'.issued
  {
    CleanupLeaves(cfg, s, r.enqueuedAt);
  }

  /** A queued request leaves the queue only by its own grant, by giving up, or by age. */
  lemma LeavesQueueOnly(cfg: Config, s: System, step: Step, r: Request)
    requires r in s.store.queue && r !in Apply(cfg, s, step).store.queue
    ensures || (step.TryAcquire? && step.r == r && Apply(cfg, s, step).log == s.log + [LogEntry(r, step.now, step.clock)])
            || (step.GiveUp? && step.r == r)
            || (step.EnterQueue? && !Recent(cfg, r, step.r.enqueuedAt))
            || ((step.TryAcquire? || step.Observe?) && !Recent(cfg, r, step.now))
  {
  }

  /** And a lease goes only when its holder leaves or when it has run out. */
  lemma LeaseGoesOnly(cfg: Config, s: System, step: Step, r: Request)
    requires r in s.store.active && r !in Apply(cfg, s, step).store.active
    ensures || (step.Exit? && step.r == r)
            || (step.EnterQueue? && s.store.active[r] <= step.r.enqueuedAt)
            || ((step.TryAcquire? || step.Observe?) && s.store.active[r] <= step.now)
  {
  }

  /** A grant lasts for the lease time, and other leases keep their ends. */
  lemma LeaseLasts(cfg: Config, s: System, step: Step)
    requires Conservation(s) && |Apply(cfg, s, step).log| > |s.log|
    ensures var s' := Apply(cfg, s, step);
      && step.TryAcquire? && step.r in s'.store.active && s'.store.active[step.r] == step.now + cfg.leaseSeconds
      && forall r <- s'.store.active | r != step.r :: r in s.store.active && s'.store.active[r] == s.store.active[r]
  {
  }
}
