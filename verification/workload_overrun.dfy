/** What happens to a holder that outlives its lease: the slot is granted again, and nothing bounds the calls really
    running. */
module WorkloadOverrun {
  import opened Workload
  import opened WorkloadSafety
  import opened WorkloadFairness

  /** Nobody waits, and every lease has run out by `now`. */
  predicate RunOut(s: System, now: real) {
    s.store.queue == {} && s.issued == {} && forall r <- s.store.active :: s.store.active[r] <= now
  }

  /** One more caller is queued and granted at `now`. */
  function OneMore(s: System, now: real): seq<Step> {
    var issue := Issue("account", Fast, "endpoint", 0, now, now);
    [issue, EnterQueue(NewRequest(s, issue), now), TryAcquire(NewRequest(s, issue), now, now)]
  }

  lemma ExecThree(cfg: Config, s: System, a: Step, b: Step, c: Step)
    ensures Exec(cfg, s, [a, b, c]) == Apply(cfg, Apply(cfg, Apply(cfg, s, a), b), c)
  {
    var s' := Apply(cfg, s, a);
    assert [a, b, c][1..] == [b, c] && [b, c][1..] == [c];
    assert Exec(cfg, Apply(cfg, s', b), [c]) == Exec(cfg, Apply(cfg, Apply(cfg, s', b), c), []);
  }

  lemma {:induction false} ExecConcat(cfg: Config, s: System, before: seq<Step>, after: seq<Step>)
    ensures Exec(cfg, s, before + after) == Exec(cfg, Exec(cfg, s, before), after)
    decreases |before|
  {
    if before == [] {
      assert before + after == after;
    } else {
      assert (before + after)[1..] == before[1..] + after;
      ExecConcat(cfg, Apply(cfg, s, before[0]), before[1..], after);
    }
  }

  lemma QueuedAlone(cfg: Config, s: System, now: real)
    requires cfg.Validated() && Inv(cfg, s) && RunOut(s, now)
    ensures var issue := Issue("account", Fast, "endpoint", 0, now, now);
      var r := NewRequest(s, issue);
      var queued := Apply(cfg, Apply(cfg, s, issue), EnterQueue(r, now));
      && queued.store.queue == {r} && queued.store.active == map[] && r in queued.waiting
      && queued.holding == s.holding && queued.issued == {} && r !in s.holding
  {
    var issue := Issue("account", Fast, "endpoint", 0, now, now);
    var r := NewRequest(s, issue);
    assert r in s.holding ==> Known(s, r);
    var issued := Apply(cfg, s, issue);
    assert Cleanup(cfg, issued.store, now).active == map[];
    assert Cleanup(cfg, issued.store, now).queue == {};
  }

  lemma GrantedAlone(cfg: Config, s: System, r: Request, now: real)
    requires cfg.Validated() && NoRateLimits(cfg) && s.store.queue == {r} && s.store.active == map[]
    requires r in s.waiting && r !in s.holding && s.issued == {} && r.enqueuedAt == now
    ensures var s' := Apply(cfg, s, TryAcquire(r, now, now));
      s'.holding == s.holding + {r} && RunOut(s', now + cfg.leaseSeconds)
  {
    var st := Cleanup(cfg, s.store, now);
    FreshStays(cfg, s.store, now);
    assert st.active == map[];
    var first := IdleServes(cfg, st, now, now);
    assert first == r;
  }

  lemma GrantsOneMore(cfg: Config, s: System, now: real) returns (steps: seq<Step>)
    requires cfg.Validated() && NoRateLimits(cfg) && Inv(cfg, s) && RunOut(s, now)
    ensures var s' := Exec(cfg, s, steps);
      |s'.holding| == |s.holding| + 1 && RunOut(s', now + cfg.leaseSeconds)
  {
    steps := OneMore(s, now);
    ExecThree(cfg, s, steps[0], steps[1], steps[2]);
    QueuedAlone(cfg, s, now);
    var queued := Apply(cfg, Apply(cfg, s, steps[0]), steps[1]);
    GrantedAlone(cfg, queued, NewRequest(s, steps[0]), now);
  }

  /** Callers arrive one by one, each when the lease before it runs out; nobody releases. */
  lemma {:induction false} Arrivals(cfg: Config, s: System, now: real, n: nat) returns (steps: seq<Step>)
    requires cfg.Validated() && NoRateLimits(cfg) && Inv(cfg, s) && RunOut(s, now)
    ensures |Exec(cfg, s, steps).holding| == |s.holding| + n
    decreases n
  {
    if n == 0 {
      steps := [];
    } else {
      var first := GrantsOneMore(cfg, s, now);
      ExecKeepsInv(cfg, s, first);
      var rest := Arrivals(cfg, Exec(cfg, s, first), now + cfg.leaseSeconds, n - 1);
      steps := first + rest;
      ExecConcat(cfg, s, first, rest);
    }
  }

  /** With any validated limits, however small, some run from the start has any number of calls really running. */
  lemma CallsUnbounded(cfg: Config, n: nat) returns (steps: seq<Step>)
    requires cfg.Validated() && NoRateLimits(cfg)
    ensures |Exec(cfg, START, steps).holding| == n
  {
    StartInv(cfg);
    steps := Arrivals(cfg, START, 0.0, n);
  }

  lemma PunctualTotal(cfg: Config, steps: seq<Step>)
    requires AllPunctual(cfg, START, steps)
    ensures |Exec(cfg, START, steps).holding| <= cfg.globalLimit
  {
    RunningWithinCaps(cfg, steps, Everything);
    assert Members(Exec(cfg, START, steps).holding, Everything) == Exec(cfg, START, steps).holding;
  }

  /** So one call more than the global limit, as two calls under a limit of one. */
  lemma OverTheLimit(cfg: Config) returns (steps: seq<Step>)
    requires cfg.Validated() && NoRateLimits(cfg)
    ensures |Exec(cfg, START, steps).holding| == cfg.globalLimit + 1 && !AllPunctual(cfg, START, steps)
  {
    steps := CallsUnbounded(cfg, cfg.globalLimit + 1);
    if AllPunctual(cfg, START, steps) { PunctualTotal(cfg, steps); }
  }
}
