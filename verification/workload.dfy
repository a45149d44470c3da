/** Global admission control for model-bound work: the Redis store, the locked sections of
    `acquire`, the unlocked `release`, and runs in which the steps of all processes interleave. */
module Workload {

  datatype Role = Fast | Deep | Generation

  datatype PerRole<T> = PerRole(fast: T, deep: T, generation: T) {
    function Get(role: Role): T {
      match role
      case Fast => fast
      case Deep => deep
      case Generation => generation
    }

    function Set(role: Role, value: T): PerRole<T> {
      match role
      case Fast => this.(fast := value)
      case Deep => this.(deep := value)
      case Generation => this.(generation := value)
    }
  }

  const PRIORITY_BACKFILL: nat := 4
  const RATE_KEY_SECONDS: real := 120.0
  const LAST_GRANT_SECONDS: real := 86400.0

  datatype Config = Config(
    globalLimit: nat, roleLimit: PerRole<nat>, accountLimit: nat, liveReserved: nat, queueMax: nat,
    waitTimeout: real, leaseSeconds: real, rpm: PerRole<nat>, minDelay: PerRole<real>)
  {
    /** What the settings validator accepts. */
    predicate Validated() {
      && 1 <= globalLimit && 1 <= accountLimit <= globalLimit && 1 <= queueMax
      && (1 <= roleLimit.fast <= globalLimit)
      && (1 <= roleLimit.deep <= globalLimit)
      && (1 <= roleLimit.generation <= globalLimit)
      && liveReserved < globalLimit
      && 0.0 < waitTimeout && 0.0 < leaseSeconds
    }

    function LowPriorityCap(): nat {
      if globalLimit < liveReserved then 0 else globalLimit - liveReserved
    }

    function MaxAge(): real {
      if waitTimeout * 2.0 < 60.0 then 60.0 else waitTimeout * 2.0
    }
  }

  /** A queue or lease member. The random token is represented by the sequence number. */
  datatype Request = Request(
    account: string, role: Role, endpoint: string, priority: nat, enqueuedAt: real, sequence: nat)

  /** A Redis value with the server time at which its key expires. */
  datatype Timed<T> = Timed(value: T, expiresAt: real)

  function Read<K, V>(m: map<K, Timed<V>>, key: K, clock: real, missing: V): V {
    if key in m && clock < m[key].expiresAt then m[key].value else missing
  }

  datatype Store = Store(
    queue: set<Request>,
    active: map<Request, real>,
    rpm: map<(string, Role, int), Timed<nat>>,
    lastRequest: map<(string, Role), Timed<real>>,
    lastGrant: map<string, Timed<nat>>,
    sequence: nat,
    grantSequence: nat,
    granted: PerRole<nat>,
    completed: PerRole<nat>)

  const EMPTY_STORE: Store := Store({}, map[], map[], map[], map[], 0, 0, PerRole(0, 0, 0), PerRole(0, 0, 0))

  /** The groups of leases a limit applies to. */
  datatype Group = Everything | OfRole(role: Role) | OfAccount(account: string) | LowPriority {
    predicate Has(r: Request) {
      match this
      case Everything => true
      case OfRole(role) => r.role == role
      case OfAccount(account) => r.account == account
      case LowPriority => r.priority >= PRIORITY_BACKFILL
    }

    function Cap(cfg: Config): nat {
      match this
      case Everything => cfg.globalLimit
      case OfRole(role) => cfg.roleLimit.Get(role)
      case OfAccount(account) => cfg.accountLimit
      case LowPriority => cfg.LowPriorityCap()
    }
  }

  function Members(s: set<Request>, g: Group): set<Request> {
    set r | r in s && g.Has(r)
  }

  function Count(s: set<Request>, g: Group): nat {
    |Members(s, g)|
  }

  function Minute(now: real): int {
    (now / 60.0).Floor
  }

  // ---------------------------------------------------------------- locked-section specifications

  function Cleanup(cfg: Config, st: Store, now: real): Store {
    st.(active := map r | r in st.active && st.active[r] > now :: st.active[r],
        queue := set r | r in st.queue && now - r.enqueuedAt <= cfg.MaxAge())
  }

  predicate RateLimitAllows(cfg: Config, st: Store, r: Request, now: real, clock: real) {
    var rpm := cfg.rpm.Get(r.role);
    var delay := cfg.minDelay.Get(r.role);
    && (rpm > 0 ==> Read(st.rpm, (r.endpoint, r.role, Minute(now)), clock, 0) < rpm)
    && (delay > 0.0 ==> now - Read(st.lastRequest, (r.endpoint, r.role), clock, 0.0) >= delay)
  }

  predicate Eligible(cfg: Config, st: Store, r: Request, now: real, clock: real) {
    && |st.active.Keys| < cfg.globalLimit
    && Count(st.active.Keys, OfRole(r.role)) < cfg.roleLimit.Get(r.role)
    && Count(st.active.Keys, OfAccount(r.account)) < cfg.accountLimit
    && (r.priority >= PRIORITY_BACKFILL ==> |st.active.Keys| < cfg.LowPriorityCap())
    && RateLimitAllows(cfg, st, r, now, clock)
  }

  function LastGrant(st: Store, account: string, clock: real): nat {
    Read(st.lastGrant, account, clock, 0)
  }

  predicate TopClass(st: Store, r: Request) {
    r in st.queue && forall q <- st.queue :: r.priority <= q.priority
  }

  predicate RankedBefore(st: Store, r: Request, q: Request, clock: real) {
    || LastGrant(st, r.account, clock) < LastGrant(st, q.account, clock)
    || (LastGrant(st, r.account, clock) == LastGrant(st, q.account, clock) && r.sequence <= q.sequence)
  }

  /** `r` is what `_select_candidate` returns: an eligible member of the best queued class whose
      account was served longest ago, oldest request first within the account. */
  predicate IsCandidate(cfg: Config, st: Store, r: Request, now: real, clock: real) {
    && TopClass(st, r)
    && Eligible(cfg, st, r, now, clock)
    && forall q <- st.queue | q.priority == r.priority && Eligible(cfg, st, q, now, clock) ::
         RankedBefore(st, r, q, clock)
  }

  function RecordGrant(cfg: Config, st: Store, r: Request, now: real, clock: real): Store {
    var rpmKey := (r.endpoint, r.role, Minute(now));
    st.(rpm := if cfg.rpm.Get(r.role) > 0
               then st.rpm[rpmKey := Timed(Read(st.rpm, rpmKey, clock, 0) + 1, clock + RATE_KEY_SECONDS)]
               else st.rpm,
        lastRequest := if cfg.minDelay.Get(r.role) > 0.0
                       then st.lastRequest[(r.endpoint, r.role) := Timed(now, clock + RATE_KEY_SECONDS)]
                       else st.lastRequest,
        grantSequence := st.grantSequence + 1,
        lastGrant := st.lastGrant[r.account := Timed(st.grantSequence + 1, clock + LAST_GRANT_SECONDS)],
        granted := st.granted.Set(r.role, st.granted.Get(r.role) + 1))
  }

  function Grant(cfg: Config, st: Store, r: Request, now: real, clock: real): Store {
    RecordGrant(cfg, st.(queue := st.queue - {r}, active := st.active[r := now + cfg.leaseSeconds]), r, now, clock)
  }

  /** First locked section of `acquire`: refuse when the bounded queue is full. */
  predicate Admits(cfg: Config, st: Store, r: Request) {
    |Cleanup(cfg, st, r.enqueuedAt).queue| < cfg.queueMax
  }

  function Enqueue(cfg: Config, st: Store, r: Request): Store {
    var cleaned := Cleanup(cfg, st, r.enqueuedAt);
    if Admits(cfg, st, r) then cleaned.(queue := cleaned.queue + {r}) else cleaned
  }

  /** Second locked section of `acquire`, run again at every poll. */
  predicate PollGrants(cfg: Config, st: Store, r: Request, now: real, clock: real) {
    IsCandidate(cfg, Cleanup(cfg, st, now), r, now, clock)
  }

  function Poll(cfg: Config, st: Store, r: Request, now: real, clock: real): Store {
    var cleaned := Cleanup(cfg, st, now);
    if PollGrants(cfg, st, r, now, clock) then Grant(cfg, cleaned, r, now, clock) else cleaned
  }

  function Withdraw(st: Store, r: Request): Store {
    st.(queue := st.queue - {r})
  }

  function Release(st: Store, r: Request): Store {
    st.(active := st.active - {r}, completed := st.completed.Set(r.role, st.completed.Get(r.role) + 1))
  }

  // ---------------------------------------------------------------- the system of all processes

  datatype LogEntry = LogEntry(request: Request, now: real, clock: real)

  /** The store together with where every `acquire` call stands, and the grants made so far. */
  datatype System = System(
    store: Store,
    issued: set<Request>,     // has a sequence number, has not reached the first locked section
    waiting: set<Request>,    // polling
    holding: set<Request>,    // lease handed out and not yet exited
    log: seq<LogEntry>,
    clock: real)

  const START: System := System(EMPTY_STORE, {}, {}, {}, [], 0.0)

  datatype Step =
    | Issue(account: string, role: Role, endpoint: string, priority: nat, now: real, clock: real)
    | EnterQueue(r: Request, clock: real)
    | TryAcquire(r: Request, now: real, clock: real)
    | GiveUp(r: Request, clock: real)       // deadline or exception: no lock is taken
    | Exit(r: Request, clock: real)         // end of the lease's `with` block: no lock is taken
    | Observe(now: real, clock: real)       // `snapshot` runs a cleanup

  function NewRequest(s: System, step: Step): Request
    requires step.Issue?
  {
    Request(step.account, step.role, step.endpoint, step.priority, step.now, s.store.sequence + 1)
  }

  predicate Enabled(s: System, step: Step) {
    match step
    case Issue(_, _, _, _, _, _) => true
    case EnterQueue(r, _) => r in s.issued
    case TryAcquire(r, _, _) => r in s.waiting
    case GiveUp(r, _) => r in s.waiting
    case Exit(r, _) => r in s.holding
    case Observe(_, _) => true
  }

  predicate Grants(cfg: Config, s: System, step: Step) {
    step.TryAcquire? && step.r in s.waiting && PollGrants(cfg, s.store, step.r, step.now, step.clock)
  }

  function Apply(cfg: Config, s: System, step: Step): System {
    if !Enabled(s, step) then s.(clock := step.clock) else
    match step
    case Issue(_, _, _, _, _, clock) =>
      s.(store := s.store.(sequence := s.store.sequence + 1), issued := s.issued + {NewRequest(s, step)}, clock := clock)
    case EnterQueue(r, clock) =>
      s.(store := Enqueue(cfg, s.store, r), issued := s.issued - {r},
         waiting := if Admits(cfg, s.store, r) then s.waiting + {r} else s.waiting, clock := clock)
    case TryAcquire(r, now, clock) =>
      var st := Poll(cfg, s.store, r, now, clock);
      if Grants(cfg, s, step)
      then s.(store := st, waiting := s.waiting - {r}, holding := s.holding + {r},
              log := s.log + [LogEntry(r, now, clock)], clock := clock)
      else s.(store := st, clock := clock)
    case GiveUp(r, clock) =>
      s.(store := Withdraw(s.store, r), waiting := s.waiting - {r}, clock := clock)
    case Exit(r, clock) =>
      s.(store := Release(s.store, r), holding := s.holding - {r}, clock := clock)
    case Observe(now, clock) =>
      s.(store := Cleanup(cfg, s.store, now), clock := clock)
  }

  function Exec(cfg: Config, s: System, steps: seq<Step>): System
    decreases |steps|
  {
    if steps == [] then s else Exec(cfg, Apply(cfg, s, steps[0]), steps[1..])
  }
}
