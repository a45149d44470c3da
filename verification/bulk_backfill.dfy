/** Dry-run and review backfill as a step machine. Every committed transaction is one step; between any
    two steps the job may be paused, resumed or cancelled, failures retried, mail delivered or expunged,
    and the batch may crash. At most one batch and one retry per failure are in flight. */
module BulkBackfill {
  import opened Common
  import opened BackfillStore
  import opened HistoricalFetch

  /** Proposals are keyed by UID and hold the review flag of the effective snapshot. */
  datatype World = World(
    job: Job, failures: map<nat, Failure>, proposals: map<nat, bool>, mailbox: Mailbox, retrying: set<nat>)

  /** Where the batch in flight stands. `after` is the cursor it started from. */
  datatype Local =
    | Idle
    | Started(after: nat)
    | Recovering(after: nat, rows: seq<nat>)
    | Fetched(after: nat, messages: seq<nat>, scan: nat, done: bool)
    | Visiting(after: nat, pending: seq<nat>, unseen: seq<nat>, scan: nat, done: bool)
    | Committing(after: nat, pending: seq<nat>, scan: nat, done: bool)
    | Finishing(after: nat, reachedEnd: bool, scan: nat, done: bool)
    | Raised            // "backfill cursor cannot move backwards"

  datatype System = System(world: World, local: Local)

  datatype Outcome = Classified(review: bool) | Transient | Broken(error: Error)

  datatype Recovery = Skipped | StopRecovery | Recovered(review: bool)

  datatype Step =
    // the batch
    | Begin
    | ListFailures(rows: seq<nat>)
    | Recover(recovery: Recovery)
    | Fetch(maxCount: nat, messages: seq<nat>, scan: nat)
    | Discover(uidvalidity: nat, total: nat)
    | Visit
    | Commit(outcome: Outcome)
    | Finish
    | Crash
    // everybody else
    | SetState(target: JobState)
    | RequestRetry(uid: nat)
    | StartRetry(uid: nat)
    | RetrySucceeds(uid: nat, review: bool)
    | RetryFails(uid: nat, error: Error)
    | DropRetry(uid: nat)
    | RestoreFailure(uid: nat, reason: Option<Error>)
    | Confirm(uid: nat)
    | Expunge(uid: nat)
    | Deliver
  {
    predicate ByBatch() {
      Begin? || ListFailures? || Recover? || Fetch? || Discover? || Visit? || Commit? || Finish? || Crash?
    }
  }

  function NewJob(): Job {
    Job(Running, None, None, 0, 0, 0, 0, 0, None)
  }

  // ---------------------------------------------------------------- the batch

  const RECOVERY_LIMIT: nat := 5

  predicate RecoverableRow(w: World, uid: nat) {
    uid in w.failures && w.failures[uid].Unresolved() && w.failures[uid].lastError == Some(Error(true))
  }

  /** The first five unresolved rows, by UID, whose stored error the recovery policy recognizes. */
  ghost predicate RecoverableList(w: World, rows: seq<nat>) {
    && |rows| <= RECOVERY_LIMIT && Ascending(rows)
    && (forall uid <- rows :: RecoverableRow(w, uid))
    && (forall uid <- w.failures | RecoverableRow(w, uid) && uid !in rows ::
          |rows| == RECOVERY_LIMIT && rows[RECOVERY_LIMIT - 1] < uid)
  }

  function CreateProposal(proposals: map<nat, bool>, uid: nat, review: bool): map<nat, bool> {
    if uid in proposals then proposals else proposals[uid := review]
  }

  function RetrySuccess(w: World, uid: nat, review: bool): World {
    w.(proposals := CreateProposal(w.proposals, uid, review),
       job := CountRetrySuccess(w.job, review), failures := ResolveFailure(w.failures, uid))
  }

  /** How the batch goes on after a transaction; Refused is the error of a backward cursor. */
  datatype Flow = GoOn | Halt | Refused

  function Advance(w: World, uid: nat, d: Deltas, error: Option<Error>): (World, Flow) {
    match Checkpoint(w.job, uid, d, error)
    case None => (w, Refused)
    case Some(job) => (w.(job := job), GoOn)
  }

  /** First pass over a message: count it if it already has a proposal, else keep it for classification. */
  function VisitOne(w: World, uid: nat): (World, Flow) {
    if w.job.state != Running then (w, Halt)
    else if uid in w.proposals then Advance(w, uid, OneSuccessful(w.proposals[uid]), None)
    else (w, GoOn)
  }

  /** Commit of one classified message. */
  function CommitOne(maxAttempts: nat, w: World, uid: nat, outcome: Outcome): (World, Flow) {
    if w.job.state != Running then (w, Halt)
    else match outcome
      case Transient => (w, Halt)
      case Broken(error) =>
        var w' := w.(failures := RecordFailure(w.failures, uid, error));
        if w'.failures[uid].attempts < maxAttempts then (w', Halt)
        else Advance(w', uid, ONE_FAILED, Some(error))
      case Classified(review) =>
        var w' := w.(proposals := CreateProposal(w.proposals, uid, review), failures := ResolveFailure(w.failures, uid));
        Advance(w', uid, OneSuccessful(review), None)
  }

  function Next(l: Local, flow: Flow, next: Local): Local
    requires l.Visiting? || l.Committing? || l.Finishing?
  {
    match flow
    case GoOn => next
    case Halt => Finishing(l.after, false, l.scan, l.done)
    case Refused => Raised
  }

  function VisitNext(w: World, l: Local): System
    requires l.Visiting? && l.unseen != []
  {
    var uid := l.unseen[0];
    var (w', flow) := VisitOne(w, uid);
    var pending := if uid in w.proposals then l.pending else l.pending + [uid];
    System(w', Next(l, flow, Visiting(l.after, pending, l.unseen[1..], l.scan, l.done)))
  }

  function CommitNext(maxAttempts: nat, w: World, l: Local, outcome: Outcome): System
    requires l.Committing? && l.pending != []
  {
    var (w', flow) := CommitOne(maxAttempts, w, l.pending[0], outcome);
    System(w', Next(l, flow, Committing(l.after, l.pending[1..], l.scan, l.done)))
  }

  /** Last transaction: jump to the scan position and complete, unless the batch was cut short. */
  function FinishOne(w: World, reachedEnd: bool, scan: nat, done: bool): (World, Flow) {
    if w.job.state != Running || !reachedEnd then (w, GoOn)
    else
      var (w', flow) := if scan > w.job.Position() then Advance(w, scan, NO_DELTAS, None) else (w, GoOn);
      if done && flow.GoOn? then (w'.(job := w'.job.(state := Completed)), GoOn) else (w', flow)
  }

  function FinishBatch(w: World, l: Local): System
    requires l.Finishing?
  {
    var (w', flow) := FinishOne(w, l.reachedEnd, l.scan, l.done);
    System(w', Next(l, flow, Idle))
  }

  ghost function BatchStep(maxAttempts: nat, s: System, step: Step): System
    requires step.ByBatch()
  {
    var w, l := s.world, s.local;
    match step
    case Crash => s.(local := Idle)
    case Begin => if l.Idle? && w.job.state == Running then s.(local := Started(w.job.Position())) else s
    case ListFailures(rows) =>
      if l.Started? && RecoverableList(w, rows) then s.(local := Recovering(l.after, rows)) else s
    case Recover(recovery) =>
      if !l.Recovering? || l.rows == [] then s else
      var next := l.(rows := l.rows[1..]);
      (match recovery
       case Skipped => s.(local := next)
       case StopRecovery => s.(local := l.(rows := []))
       case Recovered(review) =>
         if l.rows[0] in w.mailbox.uids && l.rows[0] in w.failures then System(RetrySuccess(w, l.rows[0], review), next) else s.(local := next))
    case Fetch(maxCount, messages, scan) =>
      if l.Recovering? && l.rows == [] && maxCount > 0 && IsBatch(w.mailbox, l.after, maxCount, messages, scan)
      then s.(local := Fetched(l.after, messages, scan, scan + 1 >= w.mailbox.uidNext))
      else s
    case Discover(uidvalidity, total) =>
      if !l.Fetched? then s else
      var w' := w.(job := InitializeDiscovery(w.job, uidvalidity, total));
      if UidvalidityChanged(w.job, uidvalidity) then System(w', Idle)
      else System(w', Visiting(l.after, [], l.messages, l.scan, l.done))
    case Visit =>
      if !l.Visiting? then s
      else if l.unseen == [] then s.(local := Committing(l.after, l.pending, l.scan, l.done))
      else VisitNext(w, l)
    case Commit(outcome) =>
      if !l.Committing? then s
      else if l.pending == [] then s.(local := Finishing(l.after, true, l.scan, l.done))
      else CommitNext(maxAttempts, w, l, outcome)
    case Finish => if l.Finishing? then FinishBatch(w, l) else s
  }

  // ---------------------------------------------------------------- everybody else

  function SetFailure(w: World, uid: nat, row: Failure): World {
    w.(failures := w.failures[uid := row])
  }

  function WorldStep(maxAttempts: nat, w: World, step: Step): World
    requires !step.ByBatch()
  {
    match step
    case SetState(target) =>
      if target != Completed && Transition(w.job, target).Some? then w.(job := Transition(w.job, target).value) else w
    case RequestRetry(uid) =>
      if uid in w.failures && w.failures[uid].attempts >= maxAttempts && w.failures[uid].Unresolved()
      then SetFailure(w, uid, w.failures[uid].(status := RetryingRow)) else w
    case StartRetry(uid) =>
      if uid in w.failures && w.failures[uid].status == RetryingRow then w.(retrying := w.retrying + {uid}) else w
    case RetrySucceeds(uid, review) =>
      if uid in w.retrying && uid in w.failures then RetrySuccess(w, uid, review).(retrying := w.retrying - {uid}) else w
    case RetryFails(uid, error) =>
      if uid in w.retrying && uid in w.failures
      then SetFailure(w, uid, Failure(FailedRow, w.failures[uid].attempts + 1, Some(error))).(retrying := w.retrying - {uid})
      else w
    case DropRetry(uid) => w.(retrying := w.retrying - {uid})
    case RestoreFailure(uid, reason) =>
      if uid in w.failures && w.failures[uid].status == RetryingRow && uid !in w.retrying
      then SetFailure(w, uid, w.failures[uid].(status := FailedRow, lastError := if reason.Some? then reason else w.failures[uid].lastError))
      else w
    case Confirm(uid) => if uid in w.proposals then w.(proposals := w.proposals[uid := false]) else w
    case Expunge(uid) => w.(mailbox := w.mailbox.(uids := w.mailbox.uids - {uid}))
    case Deliver => w.(mailbox := Mailbox(w.mailbox.uids + {w.mailbox.uidNext}, w.mailbox.uidNext + 1))
  }

  ghost function Apply(maxAttempts: nat, s: System, step: Step): System {
    if step.ByBatch() then BatchStep(maxAttempts, s, step) else s.(world := WorldStep(maxAttempts, s.world, step))
  }

  ghost function Exec(maxAttempts: nat, s: System, steps: seq<Step>): System
    decreases |steps|
  {
    if steps == [] then s else Exec(maxAttempts, Apply(maxAttempts, s, steps[0]), steps[1..])
  }

  ghost function Start(mailbox: Mailbox): System {
    System(World(NewJob(), map[], map[], mailbox, {}), Idle)
  }
}
