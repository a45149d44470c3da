/** Fairness and progress of the scheduler over whole runs. */
module WorkloadFairness {
  import opened Workload
  import opened WorkloadSafety
  import opened WorkloadRates

  // ---------------------------------------------------------------- bounded bypass

  /** The requests of the same account and class that may still be served before `r`. */
  function Ahead(s: System, r: Request): set<Request> {
    set q | q in s.issued + s.store.queue && q.account == r.account && q.priority == r.priority && q.sequence < r.sequence
  }

  /** While waiting, `r` stays queued, and every grant finds it eligible and in the best queued class. */
  predicate WaitsThrough(cfg: Config, s: System, step: Step, r: Request) {
    && r in s.store.queue
    && r in Apply(cfg, s, step).store.queue
    && (Grants(cfg, s, step) ==>
          var st := Cleanup(cfg, s.store, step.now);
          TopClass(st, r) && Eligible(cfg, st, r, step.now, step.clock))
  }

  ghost predicate WaitsThroughAll(cfg: Config, s: System, steps: seq<Step>, r: Request)
    decreases |steps|
  {
    steps != [] ==>
      WaitsThrough(cfg, s, steps[0], r) && WaitsThroughAll(cfg, Apply(cfg, s, steps[0]), steps[1..], r)
  }

  function Paid(cfg: Config, s: System, step: Step, account: string): nat {
    if Grants(cfg, s, step) && step.r.account == account then 1 else 0
  }

  function GrantsTo(cfg: Config, s: System, steps: seq<Step>, account: string): nat
    decreases |steps|
  {
    if steps == [] then 0
    else Paid(cfg, s, steps[0], account) + GrantsTo(cfg, Apply(cfg, s, steps[0]), steps[1..], account)
  }

  /** The last-grant keys record the latest grant of each account. */
  ghost predicate KeysMatch(keys: map<string, Timed<nat>>, log: seq<LogEntry>) {
    && (forall account <- keys ::
          1 <= keys[account].value <= |log| && log[keys[account].value - 1].request.account == account
          && keys[account].expiresAt == log[keys[account].value - 1].clock + LAST_GRANT_SECONDS)
    && (forall i :: 0 <= i < |log| ==> log[i].request.account in keys && i < keys[log[i].request.account].value)
  }

  ghost predicate GrantKeysMatch(s: System) {
    s.store.grantSequence == |s.log| && KeysMatch(s.store.lastGrant, s.log)
  }

  lemma KeysMatchAppend(
    keys: map<string, Timed<nat>>, log: seq<LogEntry>, entry: LogEntry, keys': map<string, Timed<nat>>, log': seq<LogEntry>)
    requires KeysMatch(keys, log) && log' == log + [entry]
    requires keys' == keys[entry.request.account := Timed(|log| + 1, entry.clock + LAST_GRANT_SECONDS)]
    ensures KeysMatch(keys', log')
  {
  }

  /** The part of a step the fairness argument reads: whom it served, if anyone. */
  ghost predicate Serves(s: System, s': System, entry: LogEntry) {
    && s'.log == s.log + [entry]
    && s'.store.grantSequence == s.store.grantSequence + 1
    && s'.store.lastGrant
         == s.store.lastGrant[entry.request.account := Timed(s.store.grantSequence + 1, entry.clock + LAST_GRANT_SECONDS)]
  }

  ghost predicate ServesNobody(s: System, s': System) {
    s'.log == s.log && s'.store.grantSequence == s.store.grantSequence && s'.store.lastGrant == s.store.lastGrant
  }

  lemma StepServes(cfg: Config, s: System, step: Step)
    ensures Grants(cfg, s, step) ==> Serves(s, Apply(cfg, s, step), LogEntry(step.r, step.now, step.clock))
    ensures !Grants(cfg, s, step) ==> ServesNobody(s, Apply(cfg, s, step))
  {
  }

  lemma ServingKeepsGrantKeys(s: System, s': System, entry: LogEntry)
    requires GrantKeysMatch(s)
    requires Serves(s, s', entry) || ServesNobody(s, s')
    ensures GrantKeysMatch(s')
  {
    if Serves(s, s', entry) { KeysMatchAppend(s.store.lastGrant, s.log, entry, s'.store.lastGrant, s'.log); }
  }

  lemma StepKeepsGrantKeys(cfg: Config, s: System, step: Step, s': System)
    requires GrantKeysMatch(s) && s' == Apply(cfg, s, step)
    ensures GrantKeysMatch(s')
  {
    StepServes(cfg, s, step);
    var entry := if Grants(cfg, s, step) then LogEntry(step.r, step.now, step.clock) else
      LogEntry(Request("", Fast, "", 0, 0.0, 0), 0.0, 0.0);
    ServingKeepsGrantKeys(s, s', entry);
  }

  /** `b` was served after `a`, at or after position `since` of the log: `a` now comes first. */
  predicate ServedLater(keys: map<string, Timed<nat>>, since: nat, a: string, b: string) {
    && b in keys
    && since < keys[b].value
    && (a in keys ==> keys[a].value < keys[b].value)
  }

  function Debt(s: System, since: nat, r: Request, b: string): nat {
    |Ahead(s, r)| + (if ServedLater(s.store.lastGrant, since, r.account, b) then 0 else 1)
  }

  /** Grants of the window since log position `since` were made at clock `from` or later. */
  ghost predicate InsideWindow(log: seq<LogEntry>, since: nat, from: real) {
    since <= |log| && forall i :: since <= i < |log| ==> from <= log[i].clock
  }

  lemma AheadShrinks(cfg: Config, s: System, step: Step, r: Request)
    requires Conservation(s) && WaitsThrough(cfg, s, step, r)
    ensures Ahead(Apply(cfg, s, step), r) <= Ahead(s, r)
    ensures |Ahead(Apply(cfg, s, step), r)| <= |Ahead(s, r)|
  {
    assert Known(s, r);
    SubsetCard(Ahead(Apply(cfg, s, step), r), Ahead(s, r));
  }

  /** Within an account and class the oldest request goes first. */
  lemma OwnGrantServesOlder(s: System, s': System, r: Request, g: Request, clock: real, st: Store)
    requires Conservation(s) && r in s.store.queue && g in s.store.queue && g != r
    requires g.account == r.account && g.priority == r.priority && RankedBefore(st, g, r, clock)
    requires Ahead(s', r) <= Ahead(s, r) && g !in s'.store.queue && g !in s'.issued
    ensures |Ahead(s', r)| < |Ahead(s, r)|
  {
    assert Known(s, r) && Known(s, g);
    assert g in Ahead(s, r) && g !in Ahead(s', r);
    SubsetCard(Ahead(s', r), Ahead(s, r) - {g});
  }

  /** An account served later than r's is not ranked before it while its key lives. */
  lemma ServedLaterRanksBehind(
    keys: map<string, Timed<nat>>, log: seq<LogEntry>, since: nat, from: real, a: string, b: string, clock: real)
    requires KeysMatch(keys, log) && InsideWindow(log, since, from) && clock < from + LAST_GRANT_SECONDS
    requires ServedLater(keys, since, a, b)
    ensures Read(keys, a, clock, 0) < Read(keys, b, clock, 0)
  {
    assert from <= log[keys[b].value - 1].clock;
  }

  /** `b` can be served before `a` only when its turn has not passed, and only a grant to `a` renews it. */
  lemma TurnPasses(
    keys: map<string, Timed<nat>>, log: seq<LogEntry>, since: nat, from: real, a: string, b: string, entry: LogEntry)
    requires KeysMatch(keys, log) && InsideWindow(log, since, from) && entry.clock < from + LAST_GRANT_SECONDS
    requires a != b
    requires var g := entry.request.account;
      g != a ==> Read(keys, g, entry.clock, 0) <= Read(keys, a, entry.clock, 0)
    ensures var g := entry.request.account;
      var after := keys[g := Timed(|log| + 1, entry.clock + LAST_GRANT_SECONDS)];
      (if ServedLater(after, since, a, b) then 0 else 1) + (if g == b then 1 else 0)
        <= (if ServedLater(keys, since, a, b) then 0 else 1) + (if g == a then 1 else 0)
  {
    if entry.request.account == b && ServedLater(keys, since, a, b) {
      ServedLaterRanksBehind(keys, log, since, from, a, b, entry.clock);
    }
  }

  /** What a grant made while `r` waits says about the request served. */
  lemma GrantRanking(cfg: Config, s: System, step: Step, r: Request)
    requires WaitsThrough(cfg, s, step, r) && Grants(cfg, s, step)
    ensures step.r in s.store.queue && step.r != r && step.r.priority == r.priority
    ensures RankedBefore(s.store, step.r, r, step.clock)
    ensures step.r !in Apply(cfg, s, step).store.queue && Apply(cfg, s, step).issued == s.issued
  {
    var st := Cleanup(cfg, s.store, step.now);
    assert RankedBefore(st, step.r, r, step.clock);
  }

  lemma ServingPaysDebt(s: System, s': System, entry: LogEntry, r: Request, since: nat, from: real, b: string)
    requires Conservation(s) && GrantKeysMatch(s) && InsideWindow(s.log, since, from)
    requires Serves(s, s', entry) && entry.clock < from + LAST_GRANT_SECONDS && b != r.account
    requires var g := entry.request;
      && r in s.store.queue && g in s.store.queue && g != r && g.priority == r.priority
      && RankedBefore(s.store, g, r, entry.clock)
      && g !in s'.store.queue && g !in s'.issued
    requires Ahead(s', r) <= Ahead(s, r)
    ensures Debt(s', since, r, b) + (if entry.request.account == b then 1 else 0) <= Debt(s, since, r, b)
  {
    SubsetCard(Ahead(s', r), Ahead(s, r));
    var g := entry.request;
    if g.account == r.account {
      OwnGrantServesOlder(s, s', r, g, entry.clock, s.store);
    }
    TurnPasses(s.store.lastGrant, s.log, since, from, r.account, b, entry);
  }

  lemma NotIssued(s: System, r: Request)
    requires Conservation(s) && r in s.waiting
    ensures r !in s.issued
  {
  }

  lemma StepPaysDebt(
    cfg: Config, s: System, step: Step, s': System, r: Request, since: nat, from: real, b: string)
    requires s' == Apply(cfg, s, step)
    requires Conservation(s) && GrantKeysMatch(s) && InsideWindow(s.log, since, from)
    requires WaitsThrough(cfg, s, step, r) && b != r.account
    requires Grants(cfg, s, step) ==> from <= step.clock < from + LAST_GRANT_SECONDS
    ensures InsideWindow(s'.log, since, from)
    ensures Debt(s', since, r, b) + Paid(cfg, s, step, b) <= Debt(s, since, r, b)
  {
    StepServes(cfg, s, step);
    AheadShrinks(cfg, s, step, r);
    if Grants(cfg, s, step) {
      GrantRanking(cfg, s, step, r);
      NotIssued(s, step.r);
      ServingPaysDebt(s, s', LogEntry(step.r, step.now, step.clock), r, since, from, b);
    }
  }

  /** Every grant of the run falls within the life of a last-grant key from `from` on. */
  ghost predicate WithinKeyLife(cfg: Config, s: System, steps: seq<Step>, from: real)
    decreases |steps|
  {
    steps != [] ==>
      && (Grants(cfg, s, steps[0]) ==> from <= steps[0].clock < from + LAST_GRANT_SECONDS)
      && WithinKeyLife(cfg, Apply(cfg, s, steps[0]), steps[1..], from)
  }

  /** The queue's age limit keeps the whole wait shorter than the life of a last-grant key. */
  lemma WaitIsShort(cfg: Config, lag: real, s: System, step: Step, r: Request, from: real)
    requires WaitsThrough(cfg, s, step, r) && Timely(lag, s, step) && Grants(cfg, s, step)
    requires r.enqueuedAt <= from && cfg.MaxAge() + lag < LAST_GRANT_SECONDS
    ensures step.clock < from + LAST_GRANT_SECONDS
  {
    assert r in Cleanup(cfg, s.store, step.now).queue;
  }

  lemma {:induction false} RunPaysDebt(
    cfg: Config, s: System, steps: seq<Step>, r: Request, since: nat, from: real, b: string)
    requires Inv(cfg, s) && GrantKeysMatch(s) && InsideWindow(s.log, since, from)
    requires WaitsThroughAll(cfg, s, steps, r) && WithinKeyLife(cfg, s, steps, from) && b != r.account
    ensures GrantsTo(cfg, s, steps, b) <= Debt(s, since, r, b)
    decreases |steps|
  {
    if steps != [] {
      var step := steps[0];
      var s' := Apply(cfg, s, step);
      StepPaysDebt(cfg, s, step, s', r, since, from, b);
      StepKeepsGrantKeys(cfg, s, step, s');
      StepKeepsInv(cfg, s, step);
      RunPaysDebt(cfg, s', steps[1..], r, since, from, b);
    }
  }

  lemma StepServesOlder(cfg: Config, s: System, step: Step, s': System, r: Request)
    requires s' == Apply(cfg, s, step) && Conservation(s) && WaitsThrough(cfg, s, step, r)
    ensures |Ahead(s', r)| + Paid(cfg, s, step, r.account) <= |Ahead(s, r)|
  {
    AheadShrinks(cfg, s, step, r);
    if Grants(cfg, s, step) && step.r.account == r.account {
      GrantRanking(cfg, s, step, r);
      NotIssued(s, step.r);
      OwnGrantServesOlder(s, s', r, step.r, step.clock, s.store);
    }
  }

  lemma {:induction false} RunServesOlder(cfg: Config, s: System, steps: seq<Step>, r: Request)
    requires Inv(cfg, s) && WaitsThroughAll(cfg, s, steps, r)
    ensures GrantsTo(cfg, s, steps, r.account) <= |Ahead(s, r)|
    decreases |steps|
  {
    if steps != [] {
      var s' := Apply(cfg, s, steps[0]);
      StepServesOlder(cfg, s, steps[0], s', r);
      StepKeepsInv(cfg, s, steps[0]);
      RunServesOlder(cfg, s', steps[1..], r);
    }
  }

  lemma {:induction false} RunKeepsGrantKeys(cfg: Config, s: System, steps: seq<Step>)
    requires GrantKeysMatch(s)
    ensures GrantKeysMatch(Exec(cfg, s, steps))
    decreases |steps|
  {
    if steps != [] {
      StepKeepsGrantKeys(cfg, s, steps[0], Apply(cfg, s, steps[0]));
      RunKeepsGrantKeys(cfg, Apply(cfg, s, steps[0]), steps[1..]);
    }
  }

  /** After any history, while `r` waits, its own account gets at most one more grant for each older request of r's
      account and class, however long the wait. */
  lemma OwnBypass(cfg: Config, history: seq<Step>, steps: seq<Step>, r: Request)
    requires WaitsThroughAll(cfg, Exec(cfg, START, history), steps, r)
    ensures var s := Exec(cfg, START, history); GrantsTo(cfg, s, steps, r.account) <= |Ahead(s, r)|
  {
    Safety(cfg, history);
    RunServesOlder(cfg, Exec(cfg, START, history), steps, r);
  }

  /** Bounded bypass. And every other account gets at most one grant more than that in each stretch of the wait that
      is no longer than a last-grant key lives. */
  lemma BoundedBypass(cfg: Config, history: seq<Step>, steps: seq<Step>, r: Request, from: real, other: string)
    requires var s := Exec(cfg, START, history);
      WaitsThroughAll(cfg, s, steps, r) && WithinKeyLife(cfg, s, steps, from)
    requires other != r.account
    ensures var s := Exec(cfg, START, history); GrantsTo(cfg, s, steps, other) <= |Ahead(s, r)| + 1
  {
    var s := Exec(cfg, START, history);
    Safety(cfg, history);
    RunKeepsGrantKeys(cfg, START, history);
    RunPaysDebt(cfg, s, steps, r, |s.log|, from, other);
  }

  lemma {:induction false} WaitStaysWithin(
    cfg: Config, lag: real, s: System, steps: seq<Step>, r: Request, from: real)
    requires WaitsThroughAll(cfg, s, steps, r) && AllTimely(cfg, lag, s, steps)
    requires r.enqueuedAt <= from <= s.clock && cfg.MaxAge() + lag < LAST_GRANT_SECONDS
    ensures WithinKeyLife(cfg, s, steps, from)
    decreases |steps|
  {
    if steps != [] {
      if Grants(cfg, s, steps[0]) { WaitIsShort(cfg, lag, s, steps[0], r, from); }
      WaitStaysWithin(cfg, lag, Apply(cfg, s, steps[0]), steps[1..], r, from);
    }
  }

  /** Under wait timeouts of less than half a key's life the whole wait is such a stretch. */
  lemma BypassUnderTimeout(cfg: Config, lag: real, history: seq<Step>, steps: seq<Step>, r: Request, other: string)
    requires var s := Exec(cfg, START, history);
      r.enqueuedAt <= s.clock && WaitsThroughAll(cfg, s, steps, r) && AllTimely(cfg, lag, s, steps)
    requires cfg.MaxAge() + lag < LAST_GRANT_SECONDS && other != r.account
    ensures var s := Exec(cfg, START, history); GrantsTo(cfg, s, steps, other) <= |Ahead(s, r)| + 1
  {
    var s := Exec(cfg, START, history);
    WaitStaysWithin(cfg, lag, s, steps, r, s.clock);
    BoundedBypass(cfg, history, steps, r, s.clock, other);
  }

  // ---------------------------------------------------------------- progress

  predicate NoRateLimits(cfg: Config) {
    forall role: Role :: cfg.rpm.Get(role) == 0 && cfg.minDelay.Get(role) <= 0.0
  }

  lemma BestRanked(st: Store, clock: real, candidates: set<Request>) returns (r: Request)
    requires candidates != {}
    ensures r in candidates && forall q <- candidates :: RankedBefore(st, r, q, clock)
  {
    r :| r in candidates;
    var rest := candidates - {r};
    if rest != {} {
      var b := BestRanked(st, clock, rest);
      var first := r;
      if !RankedBefore(st, r, b, clock) { r := b; }
      assert RankedBefore(st, r, first, clock);
      forall q <- candidates ensures RankedBefore(st, r, q, clock) {
        assert q == first || RankedBefore(st, b, q, clock);
      }
    } else {
      assert candidates == {r};
    }
  }

  lemma BestClass(queue: set<Request>) returns (r: Request)
    requires queue != {}
    ensures r in queue && forall q <- queue :: r.priority <= q.priority
  {
    r :| r in queue;
    var rest := queue - {r};
    if rest != {} {
      var b := BestClass(rest);
      if b.priority < r.priority { r := b; }
      assert queue == rest + (queue - rest);
    }
  }

  /** An idle, unthrottled scheduler with a waiting request always has someone to serve. */
  lemma IdleServes(cfg: Config, st: Store, now: real, clock: real) returns (r: Request)
    requires cfg.Validated() && NoRateLimits(cfg) && st.active == map[] && st.queue != {}
    ensures IsCandidate(cfg, st, r, now, clock)
  {
    var top := BestClass(st.queue);
    var candidates := set q | q in st.queue && q.priority == top.priority;
    assert top in candidates;
    assert forall g: Group :: Members({}, g) == {};
    r := BestRanked(st, clock, candidates);
    assert cfg.rpm.Get(r.role) == 0;
  }

  // ---------------------------------------------------------------- every schedule drains the queue

  /** Waiters poll before they age out of the queue, holders release, the snapshot is read; nobody arrives and
      nobody gives up. */
  predicate Draining(cfg: Config, s: System, step: Step) {
    match step
    case TryAcquire(_, now, _) => forall q <- s.store.queue :: now - q.enqueuedAt <= cfg.MaxAge()
    case Observe(now, _) => forall q <- s.store.queue :: now - q.enqueuedAt <= cfg.MaxAge()
    case Exit(_, _) => true
    case _ => false
  }

  ghost predicate DrainingAll(cfg: Config, s: System, steps: seq<Step>)
    decreases |steps|
  {
    steps == [] || (Draining(cfg, s, steps[0]) && DrainingAll(cfg, Apply(cfg, s, steps[0]), steps[1..]))
  }

  /** A poll that is granted, or the exit of a holder. */
  predicate Moves(cfg: Config, s: System, step: Step) {
    Grants(cfg, s, step) || (step.Exit? && step.r in s.holding)
  }

  function MovesIn(cfg: Config, s: System, steps: seq<Step>): nat
    decreases |steps|
  {
    if steps == [] then 0
    else (if Moves(cfg, s, steps[0]) then 1 else 0) + MovesIn(cfg, Apply(cfg, s, steps[0]), steps[1..])
  }

  function MovesLeft(s: System): nat { 2 * |s.store.queue| + |s.holding| }

  /** The log grew by exactly the members of `queue` that are no longer in `left`, each once, better classes first,
      and none of them before a better one still left. */
  ghost predicate Served(queue: set<Request>, left: set<Request>, before: seq<LogEntry>, after: seq<LogEntry>) {
    && left <= queue && before <= after && |after| + |left| == |before| + |queue|
    && (forall q <- queue - left :: exists i :: |before| <= i < |after| && after[i].request == q)
    && (forall i :: |before| <= i < |after| ==> after[i].request in queue - left)
    && (forall i, j :: |before| <= i < j < |after| ==> after[i].request.priority <= after[j].request.priority)
    && (forall i, q :: |before| <= i < |after| && q in left ==> after[i].request.priority <= q.priority)
  }

  lemma ServedFirst(
    queue: set<Request>, left: set<Request>, r: Request, before: seq<LogEntry>, entry: LogEntry, after: seq<LogEntry>)
    requires r in queue && entry.request == r && forall q <- queue :: r.priority <= q.priority
    requires Served(queue - {r}, left, before + [entry], after)
    ensures Served(queue, left, before, after)
  {
    assert after[|before|] == (before + [entry])[|before|];
    assert before <= before + [entry] <= after;
    forall q <- queue - left ensures exists i :: |before| <= i < |after| && after[i].request == q {
      if q == r { assert after[|before|].request == q; } else { assert q in queue - {r} - left; }
    }
  }

  lemma FreshStays(cfg: Config, st: Store, now: real)
    requires forall q <- st.queue :: now - q.enqueuedAt <= cfg.MaxAge()
    ensures Cleanup(cfg, st, now).queue == st.queue
  {
  }

  lemma GrantMoves(cfg: Config, s: System, step: Step)
    requires Inv(cfg, s) && Draining(cfg, s, step) && Grants(cfg, s, step)
    ensures var s' := Apply(cfg, s, step);
      && step.r in s.store.queue && (forall q <- s.store.queue :: step.r.priority <= q.priority)
      && s'.store.queue == s.store.queue - {step.r} && s'.log == s.log + [LogEntry(step.r, step.now, step.clock)]
      && MovesLeft(s') == MovesLeft(s) - 1
  {
    FreshStays(cfg, s.store, step.now);
    assert step.r !in s.holding;
  }

  lemma OtherMoves(cfg: Config, s: System, step: Step)
    requires Draining(cfg, s, step) && !Grants(cfg, s, step)
    ensures var s' := Apply(cfg, s, step);
      && s'.store.queue == s.store.queue && s'.log == s.log
      && MovesLeft(s') == MovesLeft(s) - (if Moves(cfg, s, step) then 1 else 0)
  {
    if !step.Exit? { FreshStays(cfg, s.store, step.now); }
  }

  /** Every schedule in which holders release and waiters poll serves the queue in order of class, each request at
      most once, and each granted poll and each release brings it one move nearer to the end. */
  lemma {:induction false} Drains(cfg: Config, s: System, steps: seq<Step>)
    requires Inv(cfg, s) && DrainingAll(cfg, s, steps)
    ensures var end := Exec(cfg, s, steps);
      && Served(s.store.queue, end.store.queue, s.log, end.log)
      && MovesIn(cfg, s, steps) + MovesLeft(end) == MovesLeft(s)
    decreases |steps|
  {
    if steps != [] {
      var step := steps[0];
      var s' := Apply(cfg, s, step);
      StepKeepsInv(cfg, s, step);
      Drains(cfg, s', steps[1..]);
      if Grants(cfg, s, step) {
        GrantMoves(cfg, s, step);
        ServedFirst(s.store.queue, Exec(cfg, s', steps[1..]).store.queue, step.r, s.log,
          LogEntry(step.r, step.now, step.clock), Exec(cfg, s', steps[1..]).log);
      } else {
        OtherMoves(cfg, s, step);
      }
    }
  }

  /** And no schedule is stuck before the queue is empty: at each time a holder can release, or some waiter's poll at
      that time is granted. So once no move is possible every request has been granted exactly once. */
  lemma NeverStuck(cfg: Config, s: System, now: real, clock: real) returns (step: Step)
    requires cfg.Validated() && NoRateLimits(cfg) && Inv(cfg, s) && s.store.queue != {}
    requires forall q <- s.store.queue :: now - q.enqueuedAt <= cfg.MaxAge()
    ensures Draining(cfg, s, step) && Moves(cfg, s, step) && (step.TryAcquire? ==> step.now == now && step.clock == clock)
  {
    if s.holding != {} {
      var r :| r in s.holding;
      step := Exit(r, clock);
    } else {
      FreshStays(cfg, s.store, now);
      var st := Cleanup(cfg, s.store, now);
      assert st.active.Keys <= s.store.active.Keys;
      assert st.active == map[];
      var r := IdleServes(cfg, st, now, clock);
      assert r in s.waiting;
      step := TryAcquire(r, now, clock);
    }
  }

  /** Each queued request polls in the round, before any of them ages out and before any last-grant key of a queued
      account runs out. */
  ghost predicate FullRound(cfg: Config, s: System, steps: seq<Step>) {
    && (forall step <- steps :: step.TryAcquire? && Draining(cfg, s, step))
    && (forall r <- s.store.queue :: exists step :: step in steps && step.r == r)
    && (forall step <- steps, q <- s.store.queue ::
          LastGrant(s.store, q.account, step.clock) == LastGrant(s.store, q.account, steps[0].clock))
  }

  lemma SameReadings(cfg: Config, st: Store, r: Request, now: real, clock: real, now': real, clock': real)
    requires NoRateLimits(cfg) && IsCandidate(cfg, st, r, now, clock)
    requires forall q <- st.queue :: LastGrant(st, q.account, clock') == LastGrant(st, q.account, clock)
    ensures IsCandidate(cfg, st, r, now', clock')
  {
    assert forall role: Role :: cfg.rpm.Get(role) == 0 && cfg.minDelay.Get(role) <= 0.0;
  }

  lemma RefusedChangesNothing(cfg: Config, s: System, step: Step)
    requires step.TryAcquire? && Draining(cfg, s, step) && !Grants(cfg, s, step) && s.store.active == map[]
    ensures Apply(cfg, s, step) == s.(clock := step.clock)
  {
    FreshStays(cfg, s.store, step.now);
  }

  lemma {:induction false} RefusedRound(cfg: Config, s: System, steps: seq<Step>, r: Request)
    requires s.store.active == map[] && r in s.waiting
    requires forall step <- steps :: step.TryAcquire? && Draining(cfg, s, step)
    requires forall step <- steps :: step.r == r ==> PollGrants(cfg, s.store, r, step.now, step.clock)
    requires exists step :: step in steps && step.r == r
    ensures MovesIn(cfg, s, steps) > 0
    decreases |steps|
  {
    var step :| step in steps && step.r == r;
    assert steps[0] in steps;
    if !Grants(cfg, s, steps[0]) {
      RefusedChangesNothing(cfg, s, steps[0]);
      assert step in steps[1..];
      forall later <- steps[1..] ensures later.TryAcquire? && Draining(cfg, Apply(cfg, s, steps[0]), later) {
        assert later in steps && Draining(cfg, s, later);
      }
      RefusedRound(cfg, Apply(cfg, s, steps[0]), steps[1..], r);
    }
  }

  /** When every holder has released, one full round of polls, in any order and at any times, grants somebody. */
  lemma RoundServes(cfg: Config, s: System, steps: seq<Step>)
    requires cfg.Validated() && NoRateLimits(cfg) && Inv(cfg, s) && s.holding == {} && s.store.queue != {}
    requires FullRound(cfg, s, steps)
    ensures MovesIn(cfg, s, steps) > 0
  {
    assert s.store.active == map[] by { assert s.store.active.Keys == {}; }
    var r := RoundCandidate(cfg, s, steps);
    RefusedRound(cfg, s, steps, r);
  }

  lemma RoundCandidate(cfg: Config, s: System, steps: seq<Step>) returns (r: Request)
    requires cfg.Validated() && NoRateLimits(cfg) && s.store.active == map[] && s.store.queue != {}
    requires FullRound(cfg, s, steps)
    ensures r in s.store.queue
    ensures forall step <- steps :: step.r == r ==> PollGrants(cfg, s.store, r, step.now, step.clock)
  {
    var polled :| polled in s.store.queue;
    var first := steps[0];
    r := IdleServes(cfg, s.store, first.now, first.clock);
    forall step <- steps ensures step.r == r ==> PollGrants(cfg, s.store, r, step.now, step.clock) {
      FreshStays(cfg, s.store, step.now);
      assert Cleanup(cfg, s.store, step.now) == s.store;
      SameReadings(cfg, s.store, r, first.now, first.clock, step.now, step.clock);
    }
  }
}
