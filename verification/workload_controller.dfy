/** The controller as the source writes it: fields updated in place and loops over the two sorted
    sets, each method proved against the store specification. `clock` is the Redis server time. */
module WorkloadController {
  import opened Common
  import opened Workload
  import opened WorkloadSafety

  class RedisWorkloadController {
    const cfg: Config
    var queue: set<Request>
    var active: map<Request, real>
    var rpm: map<(string, Role, int), Timed<nat>>
    var lastRequest: map<(string, Role), Timed<real>>
    var lastGrant: map<string, Timed<nat>>
    var sequence: nat
    var grantSequence: nat
    var granted: PerRole<nat>
    var completed: PerRole<nat>

    ghost function State(): Store
      reads this
    {
      Store(queue, active, rpm, lastRequest, lastGrant, sequence, grantSequence, granted, completed)
    }

    ghost predicate UniqueSequences()
      reads this
    {
      forall p, q :: p in queue && q in queue && p.sequence == q.sequence ==> p == q
    }

    constructor (cfg: Config)
      ensures this.cfg == cfg && State() == EMPTY_STORE
    {
      this.cfg := cfg;
      queue, active, rpm, lastRequest, lastGrant := {}, map[], map[], map[], map[];
      sequence, grantSequence := 0, 0;
      granted, completed := PerRole(0, 0, 0), PerRole(0, 0, 0);
    }

    method RemoveExpired(now: real)
      modifies this
      ensures State() == Cleanup(cfg, old(State()), now)
    {
      active := map r | r in active && active[r] > now :: active[r];
      var maxAge := if cfg.waitTimeout * 2.0 < 60.0 then 60.0 else cfg.waitTimeout * 2.0;
      var rest := queue;
      while rest != {}
        invariant rest <= old(queue)
        invariant queue == rest + Cleanup(cfg, old(State()), now).queue
        invariant unchanged(`rpm, `lastRequest, `lastGrant, `sequence, `grantSequence, `granted, `completed)
        invariant active == Cleanup(cfg, old(State()), now).active
        decreases rest
      {
        var r :| r in rest;
        if now - r.enqueuedAt > maxAge {
          queue := queue - {r};
        }
        rest := rest - {r};
      }
    }

    method ActiveCounts() returns (total: nat, byRole: map<Role, nat>, byAccount: map<string, nat>)
      ensures total == |active.Keys|
      ensures forall role: Role :: Lookup(byRole, role) == Count(active.Keys, OfRole(role))
      ensures forall account: string :: Lookup(byAccount, account) == Count(active.Keys, OfAccount(account))
    {
      byRole, byAccount := map[], map[];
      var rest, seen := active.Keys, {};
      assert forall g: Group :: Members({}, g) == {};
      while rest != {}
        invariant rest !! seen && rest + seen == active.Keys
        invariant forall role: Role :: Lookup(byRole, role) == Count(seen, OfRole(role))
        invariant forall account: string :: Lookup(byAccount, account) == Count(seen, OfAccount(account))
        decreases rest
      {
        var r :| r in rest;
        RoleGrows(byRole, seen, r);
        AccountGrows(byAccount, seen, r);
        byRole := byRole[r.role := Lookup(byRole, r.role) + 1];
        byAccount := byAccount[r.account := Lookup(byAccount, r.account) + 1];
        rest, seen := rest - {r}, seen + {r};
      }
      total := |active|;
    }

    method RateAllows(r: Request, now: real, clock: real) returns (ok: bool)
      ensures ok == RateLimitAllows(cfg, State(), r, now, clock)
    {
      var limit := cfg.rpm.Get(r.role);
      if limit > 0 {
        var current := Read(rpm, (r.endpoint, r.role, Minute(now)), clock, 0);
        if current >= limit { return false; }
      }
      var delay := cfg.minDelay.Get(r.role);
      if delay > 0.0 {
        var last := Read(lastRequest, (r.endpoint, r.role), clock, 0.0);
        if now - last < delay { return false; }
      }
      return true;
    }

    method IsEligible(
      r: Request, total: nat, byRole: map<Role, nat>, byAccount: map<string, nat>, now: real, clock: real)
      returns (ok: bool)
      requires total == |active.Keys|
      requires forall role: Role :: Lookup(byRole, role) == Count(active.Keys, OfRole(role))
      requires forall account: string :: Lookup(byAccount, account) == Count(active.Keys, OfAccount(account))
      ensures ok == Eligible(cfg, State(), r, now, clock)
      ensures ok ==> |active.Keys| < cfg.globalLimit
      ensures ok && r.priority >= 4 ==> |active.Keys| + cfg.liveReserved < cfg.globalLimit
    {
      if total >= cfg.globalLimit { return false; }
      if Lookup(byRole, r.role) >= cfg.roleLimit.Get(r.role) { return false; }
      if Lookup(byAccount, r.account) >= cfg.accountLimit { return false; }
      if r.priority >= PRIORITY_BACKFILL {
        var cap := cfg.LowPriorityCap();
        if total >= cap { return false; }
      }
      ok := RateAllows(r, now, clock);
    }

    method HighestPriority() returns (p: nat)
      requires queue != {}
      ensures exists q :: q in queue && q.priority == p
      ensures forall q <- queue :: p <= q.priority
    {
      var first :| first in queue;
      p := first.priority;
      var rest := queue - {first};
      while rest != {}
        invariant rest <= queue
        invariant exists q :: q in queue && q.priority == p
        invariant forall q <- queue - rest :: p <= q.priority
        decreases rest
      {
        var r :| r in rest;
        if r.priority < p { p := r.priority; }
        rest := rest - {r};
      }
    }

    method SelectCandidate(now: real, clock: real) returns (best: Option<Request>)
      requires UniqueSequences()
      ensures best.Some? ==> IsCandidate(cfg, State(), best.value, now, clock)
      ensures best.None? ==> forall q :: !IsCandidate(cfg, State(), q, now, clock)
    {
      best := None;
      if queue == {} { return; }
      var highest := HighestPriority();
      var total, byRole, byAccount := ActiveCounts();
      var rest := set q | q in queue && q.priority == highest;
      while rest != {}
        invariant rest <= queue && forall q <- rest :: q.priority == highest
        invariant best.Some? ==>
          && best.value in queue && best.value.priority == highest
          && Eligible(cfg, State(), best.value, now, clock)
        invariant forall q <- queue | q.priority == highest && q !in rest && Eligible(cfg, State(), q, now, clock) ::
          best.Some? && RankedBefore(State(), best.value, q, clock)
        decreases rest
      {
        var r :| r in rest;
        rest := rest - {r};
        var eligible := IsEligible(r, total, byRole, byAccount, now, clock);
        if !eligible { continue; }
        var last := Read(lastGrant, r.account, clock, 0);
        if best.None? {
          best := Some(r);
        } else {
          var bestLast := Read(lastGrant, best.value.account, clock, 0);
          if last < bestLast || (last == bestLast && r.sequence < best.value.sequence) {
            best := Some(r);
          }
        }
      }
    }

    method NoteGrant(r: Request, now: real, clock: real)
      modifies this
      ensures State() == RecordGrant(cfg, old(State()), r, now, clock)
    {
      if cfg.rpm.Get(r.role) > 0 {
        var key := (r.endpoint, r.role, Minute(now));
        rpm := rpm[key := Timed(Read(rpm, key, clock, 0) + 1, clock + RATE_KEY_SECONDS)];
      }
      if cfg.minDelay.Get(r.role) > 0.0 {
        lastRequest := lastRequest[(r.endpoint, r.role) := Timed(now, clock + RATE_KEY_SECONDS)];
      }
      grantSequence := grantSequence + 1;
      lastGrant := lastGrant[r.account := Timed(grantSequence, clock + LAST_GRANT_SECONDS)];
      granted := granted.Set(r.role, granted.Get(r.role) + 1);
    }

    method NewRequest(account: string, role: Role, endpoint: string, priority: nat, now: real) returns (r: Request)
      modifies this
      ensures r == Request(account, role, endpoint, priority, now, old(sequence) + 1)
      ensures State() == old(State()).(sequence := old(sequence) + 1)
    {
      sequence := sequence + 1;
      r := Request(account, role, endpoint, priority, now, sequence);
    }

    /** First locked section of `acquire`; false is the queue-full error. */
    method EnterQueue(r: Request) returns (accepted: bool)
      modifies this
      ensures State() == Enqueue(cfg, old(State()), r)
      ensures accepted == Admits(cfg, old(State()), r)
    {
      RemoveExpired(r.enqueuedAt);
      if |queue| >= cfg.queueMax { return false; }
      queue := queue + {r};
      return true;
    }

    /** Second locked section of `acquire`. */
    method TryAcquire(r: Request, now: real, clock: real) returns (acquired: bool)
      requires UniqueSequences()
      modifies this
      ensures State() == Poll(cfg, old(State()), r, now, clock)
      ensures acquired == PollGrants(cfg, old(State()), r, now, clock)
    {
      RemoveExpired(now);
      var candidate := SelectCandidate(now, clock);
      if candidate == Some(r) {
        queue := queue - {r};
        active := active[r := now + cfg.leaseSeconds];
        NoteGrant(r, now, clock);
        return true;
      }
      return false;
    }

    method GiveUp(r: Request)
      modifies this`queue
      ensures State() == Withdraw(old(State()), r)
    {
      queue := queue - {r};
    }

    method ReleaseLease(r: Request)
      modifies this`active, this`completed
      ensures State() == Release(old(State()), r)
    {
      active := active - {r};
      completed := completed.Set(r.role, completed.Get(r.role) + 1);
    }
  }

  function Lookup<K>(counts: map<K, nat>, key: K): nat {
    if key in counts then counts[key] else 0
  }

  lemma RoleGrows(byRole: map<Role, nat>, seen: set<Request>, r: Request)
    requires r !in seen && forall role: Role :: Lookup(byRole, role) == Count(seen, OfRole(role))
    ensures forall role: Role ::
      Lookup(byRole[r.role := Lookup(byRole, r.role) + 1], role) == Count(seen + {r}, OfRole(role))
  {
    forall role: Role
      ensures Lookup(byRole[r.role := Lookup(byRole, r.role) + 1], role) == Count(seen + {r}, OfRole(role))
    {
      CountGrows(seen, r, OfRole(role));
    }
  }

  lemma AccountGrows(byAccount: map<string, nat>, seen: set<Request>, r: Request)
    requires r !in seen && forall account: string :: Lookup(byAccount, account) == Count(seen, OfAccount(account))
    ensures forall account: string ::
      Lookup(byAccount[r.account := Lookup(byAccount, r.account) + 1], account) == Count(seen + {r}, OfAccount(account))
  {
    forall account: string
      ensures Lookup(byAccount[r.account := Lookup(byAccount, r.account) + 1], account) == Count(seen + {r}, OfAccount(account))
    {
      CountGrows(seen, r, OfAccount(account));
    }
  }
}
