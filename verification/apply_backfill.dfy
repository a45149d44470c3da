/** Apply-mode backfill as a step machine: the live pipeline processes each message and writes its own
    row, then a second transaction advances the cursor. The loop has no flag for an observed pause. */
module ApplyBackfill {
  import opened Common
  import opened BackfillStore
  import opened HistoricalFetch

  /** `handled` are the processed-email rows, by UID, with their review flag. */
  datatype World = World(
    job: Job, failures: map<nat, Failure>, handled: map<nat, bool>, mailbox: Mailbox, retrying: set<nat>)

  datatype Local =
    | Idle
    | Started(after: nat)
    | Fetched(rest: seq<nat>, scan: nat, done: bool)
    | Looping(rest: seq<nat>, scan: nat, done: bool)
    | Working(rest: seq<nat>, scan: nat, done: bool)      // the head is with the live pipeline
    | Recorded(rest: seq<nat>, scan: nat, done: bool)     // the head's row is committed
    | Finishing(rest: seq<nat>, yielded: bool, scan: nat, done: bool)
    | Raised

  datatype System = System(world: World, local: Local)

  datatype Outcome = Handled(review: bool) | NotHandled | Broken(error: Error)

  datatype Step =
    | Begin
    | Fetch(maxCount: nat, messages: seq<nat>, scan: nat)
    | Discover(uidvalidity: nat, total: nat)
    | Check
    | Process(outcome: Outcome)
    | Commit
    | Finish
    | Crash
    | SetState(target: JobState)
    | RequestRetry(uid: nat)
    | StartRetry(uid: nat)
    | RetrySucceeds(uid: nat)
    | RetryFails(uid: nat, error: Error)
    | DropRetry(uid: nat)
    | RestoreFailure(uid: nat, reason: Option<Error>)
    | HandledElsewhere(uid: nat, review: bool)
    | Expunge(uid: nat)
    | Deliver
  {
    predicate ByBatch() {
      Begin? || Fetch? || Discover? || Check? || Process? || Commit? || Finish? || Crash?
    }
  }

  datatype Flow = GoOn | Halt | Refused

  function ReviewOf(w: World, uid: nat): bool {
    uid in w.handled && w.handled[uid]
  }

  function Advance(w: World, uid: nat, d: Deltas, error: Option<Error>): (World, Flow) {
    match Checkpoint(w.job, uid, d, error)
    case None => (w, Refused)
    case Some(job) => (w.(job := job), GoOn)
  }

  /** Resolve the row, if any, and count the message as successful. */
  function Succeed(w: World, uid: nat): (World, Flow) {
    Advance(w.(failures := ResolveFailure(w.failures, uid)), uid, OneSuccessful(ReviewOf(w, uid)), None)
  }

  function Fail(maxAttempts: nat, w: World, uid: nat, error: Error): (World, Flow) {
    var w' := w.(failures := RecordFailure(w.failures, uid, error));
    if w'.failures[uid].attempts < maxAttempts then (w', Halt)
    else Advance(w', uid, ONE_FAILED, Some(error))
  }

  function FinishOne(w: World, yielded: bool, scan: nat, done: bool): (World, Flow) {
    if w.job.state != Running || yielded then (w, GoOn)
    else
      var (w', flow) := if scan > w.job.Position() then Advance(w, scan, NO_DELTAS, None) else (w, GoOn);
      if done && flow.GoOn? then (w'.(job := w'.job.(state := Completed)), GoOn) else (w', flow)
  }

  function Enter(r: (World, Flow), next: Local, halted: Local): System {
    System(r.0, match r.1 case GoOn => next case Halt => halted case Refused => Raised)
  }

  ghost function BatchStep(maxAttempts: nat, s: System, step: Step): System
    requires step.ByBatch()
  {
    var w, l := s.world, s.local;
    match step
    case Crash => s.(local := Idle)
    case Begin => if l.Idle? && w.job.state == Running then s.(local := Started(w.job.Position())) else s
    case Fetch(maxCount, messages, scan) =>
      if l.Started? && maxCount > 0 && IsBatch(w.mailbox, l.after, maxCount, messages, scan)
      then s.(local := Fetched(messages, scan, scan + 1 >= w.mailbox.uidNext)) else s
    case Discover(uidvalidity, total) =>
      if !l.Fetched? then s else
      System(w.(job := InitializeDiscovery(w.job, uidvalidity, total)),
             if UidvalidityChanged(w.job, uidvalidity) then Idle else Looping(l.rest, l.scan, l.done))
    case Check =>
      if !l.Looping? then s
      else if l.rest == [] || w.job.state != Running then s.(local := Finishing(l.rest, false, l.scan, l.done))
      else if l.rest[0] in w.handled then
        Enter(Succeed(w, l.rest[0]), Looping(l.rest[1..], l.scan, l.done), Idle)
      else s.(local := Working(l.rest, l.scan, l.done))
    case Process(outcome) =>
      if !l.Working? || l.rest == [] then s else
      (match outcome
       case Handled(review) =>
         System(w.(handled := w.handled[l.rest[0] := review]), Recorded(l.rest, l.scan, l.done))
       case NotHandled => s.(local := Finishing(l.rest, true, l.scan, l.done))
       case Broken(error) =>
         Enter(Fail(maxAttempts, w, l.rest[0], error), Looping(l.rest[1..], l.scan, l.done),
               Finishing(l.rest, true, l.scan, l.done)))
    case Commit =>
      if l.Recorded? && l.rest != []
      then Enter(Succeed(w, l.rest[0]), Looping(l.rest[1..], l.scan, l.done), Idle) else s
    case Finish =>
      if l.Finishing? then Enter(FinishOne(w, l.yielded, l.scan, l.done), Idle, Idle) else s
  }

  function SetFailure(w: World, uid: nat, row: Failure): World {
    w.(failures := w.failures[uid := row])
  }

  function WorldStep(maxAttempts: nat, w: World, step: Step): World
    requires !step.ByBatch()
  {
    match step
    case SetState(target) =>
      if target != Completed && Transition(w.job, target).Some? then w.(job := Transition(w.job, target).value) else w
    case RequestRetry(uid) =>
      if uid in w.failures && w.failures[uid].attempts >= maxAttempts && w.failures[uid].Unresolved()
      then SetFailure(w, uid, w.failures[uid].(status := RetryingRow)) else w
    case StartRetry(uid) =>
      if uid in w.failures && w.failures[uid].status == RetryingRow then w.(retrying := w.retrying + {uid}) else w
    case RetrySucceeds(uid) =>
      if uid in w.retrying && uid in w.failures
      then w.(job := CountRetrySuccess(w.job, ReviewOf(w, uid)), failures := ResolveFailure(w.failures, uid),
              retrying := w.retrying - {uid})
      else w
    case RetryFails(uid, error) =>
      if uid in w.retrying && uid in w.failures
      then SetFailure(w, uid, Failure(FailedRow, w.failures[uid].attempts + 1, Some(error))).(retrying := w.retrying - {uid})
      else w
    case DropRetry(uid) => w.(retrying := w.retrying - {uid})
    case RestoreFailure(uid, reason) =>
      if uid in w.failures && w.failures[uid].status == RetryingRow && uid !in w.retrying
      then SetFailure(w, uid, w.failures[uid].(status := FailedRow, lastError := if reason.Some? then reason else w.failures[uid].lastError))
      else w
    case HandledElsewhere(uid, review) => if uid in w.handled then w else w.(handled := w.handled[uid := review])
    case Expunge(uid) => w.(mailbox := w.mailbox.(uids := w.mailbox.uids - {uid}))
    case Deliver => w.(mailbox := Mailbox(w.mailbox.uids + {w.mailbox.uidNext}, w.mailbox.uidNext + 1))
  }

  ghost function Apply(maxAttempts: nat, s: System, step: Step): System {
    if step.ByBatch() then BatchStep(maxAttempts, s, step) else s.(world := WorldStep(maxAttempts, s.world, step))
  }

  ghost function Exec(maxAttempts: nat, s: System, steps: seq<Step>): System
    decreases |steps|
  {
    if steps == [] then s else Exec(maxAttempts, Apply(maxAttempts, s, steps[0]), steps[1..])
  }

  ghost function Start(mailbox: Mailbox, handled: map<nat, bool>): System {
    System(World(Job(Running, None, None, 0, 0, 0, 0, 0, None), map[], handled, mailbox, {}), Idle)
  }
}
