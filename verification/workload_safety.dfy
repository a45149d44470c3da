/** What every reachable state of the scheduler keeps: capacity, request conservation, and, while
    holders respect their leases, the same caps on the calls really running. */
module WorkloadSafety {
  import opened Workload

  // ---------------------------------------------------------------- counting

  lemma CountGrows(s: set<Request>, r: Request, g: Group)
    requires r !in s
    ensures Count(s + {r}, g) == Count(s, g) + (if g.Has(r) then 1 else 0)
  {
    assert Members(s + {r}, g) == Members(s, g) + (if g.Has(r) then {r} else {});
  }

  lemma CountShrinks(s: set<Request>, r: Request, g: Group)
    requires r in s
    ensures Count(s - {r}, g) == Count(s, g) - (if g.Has(r) then 1 else 0)
  {
    assert Members(s, g) == Members(s - {r}, g) + (if g.Has(r) then {r} else {});
  }

  lemma SubsetCard<T>(a: set<T>, b: set<T>)
    requires a <= b
    ensures |a| <= |b|
  {
    assert b == a + (b - a);
  }

  lemma CountMonotone(a: set<Request>, b: set<Request>, g: Group)
    requires a <= b
    ensures Count(a, g) <= Count(b, g) <= |b|
  {
    SubsetCard(Members(a, g), Members(b, g));
    SubsetCard(Members(b, g), b);
  }

  // ---------------------------------------------------------------- invariants

  ghost predicate Capacity(cfg: Config, s: System) {
    && |s.store.queue| <= cfg.queueMax
    && forall g: Group :: Count(s.store.active.Keys, g) <= g.Cap(cfg)
  }

  ghost predicate Known(s: System, r: Request) {
    r in s.issued || r in s.waiting || r in s.holding || exists i :: 0 <= i < |s.log| && s.log[i].request == r
  }

  /** A sequence number names one request, and each request stands in one place. */
  ghost predicate Conservation(s: System) {
    && s.store.queue <= s.waiting
    && s.store.active.Keys <= s.holding
    && s.issued !! s.waiting !! s.holding
    && (forall r :: Known(s, r) ==> 1 <= r.sequence <= s.store.sequence)
    && (forall r, q :: Known(s, r) && Known(s, q) && r.sequence == q.sequence ==> r == q)
    && (forall i :: 0 <= i < |s.log| ==> s.log[i].request !in s.issued && s.log[i].request !in s.waiting)
    && (forall i, j :: 0 <= i < j < |s.log| ==> s.log[i].request != s.log[j].request)
    && (forall r <- s.holding :: exists i :: 0 <= i < |s.log| && s.log[i].request == r)
  }

  /** granted - completed is the number of leases handed out and not yet exited. */
  ghost predicate Balanced(s: System) {
    && s.store.grantSequence == |s.log|
    && forall role: Role ::
         s.store.granted.Get(role) == s.store.completed.Get(role) + Count(s.holding, OfRole(role))
  }

  ghost predicate Inv(cfg: Config, s: System) {
    Capacity(cfg, s) && Conservation(s) && Balanced(s)
  }

  // ---------------------------------------------------------------- capacity

  lemma CleanupShrinks(cfg: Config, st: Store, now: real)
    ensures Cleanup(cfg, st, now).queue <= st.queue
    ensures Cleanup(cfg, st, now).active.Keys <= st.active.Keys
    ensures |Cleanup(cfg, st, now).queue| <= |st.queue|
    ensures forall g: Group :: Count(Cleanup(cfg, st, now).active.Keys, g) <= Count(st.active.Keys, g)
  {
    var c := Cleanup(cfg, st, now);
    SubsetCard(c.queue, st.queue);
    forall g: Group ensures Count(c.active.Keys, g) <= Count(st.active.Keys, g) {
      CountMonotone(c.active.Keys, st.active.Keys, g);
    }
  }

  /** The eligibility test leaves room in every group the request belongs to. */
  lemma EligibleLeavesRoom(cfg: Config, st: Store, r: Request, now: real, clock: real, g: Group)
    requires Eligible(cfg, st, r, now, clock) && g.Has(r)
    ensures Count(st.active.Keys, g) < g.Cap(cfg)
  {
    CountMonotone(st.active.Keys, st.active.Keys, g);
  }

  lemma GrantKeepsCapacity(cfg: Config, st: Store, r: Request, now: real, clock: real)
    requires IsCandidate(cfg, st, r, now, clock) && r !in st.active
    requires forall g: Group :: Count(st.active.Keys, g) <= g.Cap(cfg)
    ensures forall g: Group :: Count(Grant(cfg, st, r, now, clock).active.Keys, g) <= g.Cap(cfg)
  {
    var after := Grant(cfg, st, r, now, clock).active.Keys;
    assert after == st.active.Keys + {r};
    forall g: Group ensures Count(after, g) <= g.Cap(cfg) {
      CountGrows(st.active.Keys, r, g);
      if g.Has(r) { EligibleLeavesRoom(cfg, st, r, now, clock, g); }
    }
  }

  lemma StepKeepsCapacity(cfg: Config, s: System, step: Step)
    requires Capacity(cfg, s) && Conservation(s)
    ensures Capacity(cfg, Apply(cfg, s, step))
  {
    if Enabled(s, step) {
      match step
      case Issue(_, _, _, _, _, _) =>
      case EnterQueue(r, _) =>
        CleanupShrinks(cfg, s.store, r.enqueuedAt);
      case TryAcquire(r, now, clock) =>
        CleanupShrinks(cfg, s.store, now);
        var c := Cleanup(cfg, s.store, now);
        if Grants(cfg, s, step) {
          assert r in s.waiting && c.active.Keys <= s.holding;
          GrantKeepsCapacity(cfg, c, r, now, clock);
          SubsetCard(c.queue - {r}, c.queue);
        }
      case GiveUp(r, _) =>
        SubsetCard(s.store.queue - {r}, s.store.queue);
      case Exit(r, _) =>
        assert (s.store.active - {r}).Keys == s.store.active.Keys - {r};
        forall g: Group ensures Count(s.store.active.Keys - {r}, g) <= g.Cap(cfg) {
          CountMonotone(s.store.active.Keys - {r}, s.store.active.Keys, g);
        }
      case Observe(now, _) =>
        CleanupShrinks(cfg, s.store, now);
    }
  }

  // ---------------------------------------------------------------- conservation

  lemma GrantKeepsConservation(cfg: Config, s: System, step: Step)
    requires Conservation(s) && Grants(cfg, s, step)
    ensures Conservation(Apply(cfg, s, step))
  {
    var s' := Apply(cfg, s, step);
    var n := |s.log|;
    assert forall i :: 0 <= i < n ==> s'.log[i] == s.log[i];
    assert s'.log[n].request == step.r;
    assert forall r :: Known(s', r) ==> Known(s, r);
    assert Known(s, step.r);
  }

  lemma IssueKeepsConservation(cfg: Config, s: System, step: Step)
    requires Conservation(s) && step.Issue?
    ensures Conservation(Apply(cfg, s, step))
  {
    var s' := Apply(cfg, s, step);
    var newcomer := NewRequest(s, step);
    assert forall r :: Known(s', r) ==> Known(s, r) || r == newcomer;
    assert !Known(s, newcomer);
  }

  /** Steps that neither grant nor issue only move requests between places or drop them. */
  lemma MoveKeepsConservation(s: System, s': System)
    requires Conservation(s) && s'.log == s.log && s'.store.sequence == s.store.sequence
    requires s'.issued <= s.issued && s'.waiting <= s.waiting + (s.issued - s'.issued) && s'.holding <= s.holding
    requires s'.store.queue <= s'.waiting && s'.store.active.Keys <= s'.holding
    ensures Conservation(s')
  {
    assert forall r :: Known(s', r) ==> Known(s, r);
  }

  lemma StepKeepsConservation(cfg: Config, s: System, step: Step)
    requires Conservation(s)
    ensures Conservation(Apply(cfg, s, step))
  {
    if Grants(cfg, s, step) {
      GrantKeepsConservation(cfg, s, step);
    } else if step.Issue? {
      IssueKeepsConservation(cfg, s, step);
    } else {
      MoveKeepsConservation(s, Apply(cfg, s, step));
    }
  }

  lemma StepKeepsBalance(cfg: Config, s: System, step: Step)
    requires Conservation(s) && Balanced(s)
    ensures Balanced(Apply(cfg, s, step))
  {
    var s' := Apply(cfg, s, step);
    forall role: Role
      ensures s'.store.granted.Get(role) == s'.store.completed.Get(role) + Count(s'.holding, OfRole(role))
    {
      if Grants(cfg, s, step) {
        CountGrows(s.holding, step.r, OfRole(role));
      } else if Enabled(s, step) && step.Exit? {
        CountShrinks(s.holding, step.r, OfRole(role));
      }
    }
  }

  lemma {:induction false} ExecKeepsInv(cfg: Config, s: System, steps: seq<Step>)
    requires Inv(cfg, s)
    ensures Inv(cfg, Exec(cfg, s, steps))
    decreases |steps|
  {
    if steps != [] {
      StepKeepsCapacity(cfg, s, steps[0]);
      StepKeepsConservation(cfg, s, steps[0]);
      StepKeepsBalance(cfg, s, steps[0]);
      ExecKeepsInv(cfg, Apply(cfg, s, steps[0]), steps[1..]);
    }
  }

  lemma StartInv(cfg: Config)
    ensures Inv(cfg, START)
  {
    forall g: Group ensures Count({}, g) == 0 {
      assert Members({}, g) == {};
    }
  }

  /** Capacity and conservation in every reachable state, for every interleaving of queueing, polling,
      giving up, release, and lease expiry. */
  lemma Safety(cfg: Config, steps: seq<Step>)
    ensures Inv(cfg, Exec(cfg, START, steps))
  {
    StartInv(cfg);
    ExecKeepsInv(cfg, START, steps);
  }

  // ---------------------------------------------------------------- calls really running

  function CleanupTime(s: System, step: Step): (now: real)
    requires Cleans(s, step)
  {
    match step
    case EnterQueue(r, _) => r.enqueuedAt
    case TryAcquire(_, now, _) => now
    case Observe(now, _) => now
  }

  predicate Cleans(s: System, step: Step) {
    Enabled(s, step) && (step.EnterQueue? || step.TryAcquire? || step.Observe?)
  }

  /** No call that is still running has outlived its lease when this step cleans up. */
  predicate Punctual(s: System, step: Step) {
    Cleans(s, step) ==>
      forall r <- s.holding :: r in s.store.active ==> s.store.active[r] > CleanupTime(s, step)
  }

  ghost predicate AllPunctual(cfg: Config, s: System, steps: seq<Step>)
    decreases |steps|
  {
    steps != [] ==> Punctual(s, steps[0]) && AllPunctual(cfg, Apply(cfg, s, steps[0]), steps[1..])
  }

  lemma CleanupTracksRunning(cfg: Config, s: System, now: real)
    requires s.store.active.Keys == s.holding
    ensures Cleanup(cfg, s.store, now).active.Keys == s.holding
      <==> forall r <- s.holding :: s.store.active[r] > now
  {
    var c := Cleanup(cfg, s.store, now).active;
    assert forall r :: r in c <==> r in s.holding && s.store.active[r] > now;
  }

  /** One step keeps "the leases are exactly the running calls" if and only if it is punctual. */
  lemma StepTracksRunning(cfg: Config, s: System, step: Step)
    requires Conservation(s) && s.store.active.Keys == s.holding
    ensures Apply(cfg, s, step).store.active.Keys == Apply(cfg, s, step).holding <==> Punctual(s, step)
  {
    var s' := Apply(cfg, s, step);
    if Cleans(s, step) {
      CleanupTracksRunning(cfg, s, CleanupTime(s, step));
      if Grants(cfg, s, step) {
        GrantTracksRunning(cfg, s, step);
      }
    } else if Enabled(s, step) && step.Exit? {
      assert s'.store.active.Keys == s.store.active.Keys - {step.r};
    }
  }

  lemma GrantTracksRunning(cfg: Config, s: System, step: Step)
    requires Conservation(s) && Grants(cfg, s, step)
    ensures Apply(cfg, s, step).store.active.Keys == Apply(cfg, s, step).holding
      <==> Cleanup(cfg, s.store, step.now).active.Keys == s.holding
  {
    var s' := Apply(cfg, s, step);
    var c := Cleanup(cfg, s.store, step.now).active.Keys;
    assert s'.store.active.Keys == c + {step.r} && s'.holding == s.holding + {step.r};
    assert step.r !in s.holding && step.r !in c;
    AddBoth(c, s.holding, step.r);
  }

  lemma AddBoth(a: set<Request>, b: set<Request>, r: Request)
    requires r !in a && r !in b
    ensures a + {r} == b + {r} <==> a == b
  {
    assert (a + {r}) - {r} == a && (b + {r}) - {r} == b;
  }

  /** In every state of the run the leases are the running calls. */
  ghost predicate AlwaysTracks(cfg: Config, s: System, steps: seq<Step>)
    decreases |steps|
  {
    s.store.active.Keys == s.holding && (steps != [] ==> AlwaysTracks(cfg, Apply(cfg, s, steps[0]), steps[1..]))
  }

  lemma StepKeepsInv(cfg: Config, s: System, step: Step)
    requires Inv(cfg, s)
    ensures Inv(cfg, Apply(cfg, s, step))
  {
    ExecKeepsInv(cfg, s, [step]);
    assert Exec(cfg, s, [step]) == Apply(cfg, s, step);
  }

  lemma {:induction false} TracksIffPunctual(cfg: Config, s: System, steps: seq<Step>)
    requires Inv(cfg, s) && s.store.active.Keys == s.holding
    ensures AlwaysTracks(cfg, s, steps) <==> AllPunctual(cfg, s, steps)
    decreases |steps|
  {
    if steps != [] {
      var s' := Apply(cfg, s, steps[0]);
      StepTracksRunning(cfg, s, steps[0]);
      StepKeepsInv(cfg, s, steps[0]);
      if s'.store.active.Keys == s'.holding { TracksIffPunctual(cfg, s', steps[1..]); }
    }
  }

  /** From the start, the leases are the running calls in every state of a run if and only if no lease ever expires
      under its holder. */
  lemma LeasesAreCallsIff(cfg: Config, steps: seq<Step>)
    ensures AlwaysTracks(cfg, START, steps) <==> AllPunctual(cfg, START, steps)
  {
    StartInv(cfg);
    TracksIffPunctual(cfg, START, steps);
  }

  lemma {:induction false} TracksAtTheEnd(cfg: Config, s: System, steps: seq<Step>)
    requires AlwaysTracks(cfg, s, steps)
    ensures Exec(cfg, s, steps).store.active.Keys == Exec(cfg, s, steps).holding
    decreases |steps|
  {
    if steps != [] { TracksAtTheEnd(cfg, Apply(cfg, s, steps[0]), steps[1..]); }
  }

  /** If every holder releases within its lease, the caps bound the calls really running. */
  lemma RunningWithinCaps(cfg: Config, steps: seq<Step>, g: Group)
    requires AllPunctual(cfg, START, steps)
    ensures Count(Exec(cfg, START, steps).holding, g) <= g.Cap(cfg)
  {
    Safety(cfg, steps);
    LeasesAreCallsIff(cfg, steps);
    TracksAtTheEnd(cfg, START, steps);
  }

  // ---------------------------------------------------------------- one decision per state

  /** At most one waiter can be granted in a given state: grants never depend on who polls first. */
  lemma OneCandidate(cfg: Config, s: System, p: Request, q: Request, now: real, clock: real)
    requires Conservation(s)
    requires PollGrants(cfg, s.store, p, now, clock) && PollGrants(cfg, s.store, q, now, clock)
    ensures p == q
  {
    CleanupShrinks(cfg, s.store, now);
    assert Known(s, p) && Known(s, q);
  }
}
