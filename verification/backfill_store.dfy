/** Rows of one backfill job and the repository operations on them. Failure rows are keyed by UID:
    after `initialize_discovery` a job only ever sees one UIDVALIDITY. */
module BackfillStore {
  import opened Common

  datatype JobState = Running | Paused | Completed | Cancelled | Failed

  /** An error text, by what the recovery policy makes of it. */
  datatype Error = Error(recoverable: bool)

  datatype Job = Job(
    state: JobState, uidvalidity: Option<nat>, cursor: Option<nat>, totalDiscovered: nat,
    processed: nat, successful: nat, reviewRequired: nat, failed: nat, lastError: Option<Error>)
  {
    /** `cursor_uid or 0` */
    function Position(): nat {
      if cursor.Some? then cursor.value else 0
    }
  }

  datatype FailureStatus = FailedRow | ReviewRow | RetryingRow | ResolvedRow

  datatype Failure = Failure(status: FailureStatus, attempts: nat, lastError: Option<Error>) {
    predicate Unresolved() { status == FailedRow || status == ReviewRow }
  }

  datatype Deltas = Deltas(processed: nat, successful: nat, review: nat, failed: nat)

  const NO_DELTAS := Deltas(0, 0, 0, 0)
  const ONE_FAILED := Deltas(1, 0, 0, 1)

  function OneSuccessful(review: bool): Deltas {
    Deltas(1, 1, if review then 1 else 0, 0)
  }

  function AllowedTargets(from: JobState): set<JobState> {
    match from
    case Running => {Paused, Completed, Cancelled, Failed}
    case Paused => {Running, Cancelled, Failed}
    case Completed => {}
    case Cancelled => {}
    case Failed => {Running, Cancelled}
  }

  /** None is the state error. */
  function Transition(job: Job, target: JobState): Option<Job> {
    if target == job.state then Some(job)
    else if target in AllowedTargets(job.state) then Some(job.(state := target))
    else None
  }

  predicate UidvalidityChanged(job: Job, uidvalidity: nat) {
    job.uidvalidity.Some? && job.uidvalidity.value != uidvalidity
  }

  function InitializeDiscovery(job: Job, uidvalidity: nat, total: nat): Job {
    if UidvalidityChanged(job, uidvalidity) then job.(state := Failed, lastError := Some(Error(false)))
    else job.(uidvalidity := Some(uidvalidity), totalDiscovered := if total > job.totalDiscovered then total else job.totalDiscovered)
  }

  /** None is "backfill cursor cannot move backwards". */
  function Checkpoint(job: Job, uid: nat, d: Deltas, error: Option<Error>): Option<Job> {
    if job.cursor.Some? && uid < job.cursor.value then None
    else Some(job.(cursor := Some(uid), processed := job.processed + d.processed,
                   successful := job.successful + d.successful, reviewRequired := job.reviewRequired + d.review,
                   failed := job.failed + d.failed, lastError := error))
  }

  function RecordFailure(failures: map<nat, Failure>, uid: nat, error: Error): map<nat, Failure> {
    var attempts := if uid in failures then failures[uid].attempts + 1 else 1;
    failures[uid := Failure(FailedRow, attempts, Some(error))]
  }

  function ResolveFailure(failures: map<nat, Failure>, uid: nat): map<nat, Failure> {
    if uid in failures then failures[uid := failures[uid].(status := ResolvedRow, lastError := None)] else failures
  }

  /** The job half of `apply_retry_success`; the row half is ResolveFailure. */
  function CountRetrySuccess(job: Job, review: bool): Job {
    job.(failed := if job.failed > 0 then job.failed - 1 else 0, successful := job.successful + 1,
         reviewRequired := job.reviewRequired + (if review then 1 else 0))
  }

  /** What every mode keeps between the counters. */
  predicate CountersBounded(job: Job) {
    job.processed <= job.successful + job.failed && job.reviewRequired <= job.successful
  }

  predicate CountersExact(job: Job) {
    job.processed == job.successful + job.failed
  }

  /** Every repository operation keeps the bounds, whatever the caller passes as an outcome. */
  lemma CheckpointKeepsCounters(job: Job, uid: nat, d: Deltas, error: Option<Error>)
    requires d == NO_DELTAS || d == ONE_FAILED || d == OneSuccessful(true) || d == OneSuccessful(false)
    requires Checkpoint(job, uid, d, error).Some?
    ensures CountersBounded(job) ==> CountersBounded(Checkpoint(job, uid, d, error).value)
    ensures CountersExact(job) <==> CountersExact(Checkpoint(job, uid, d, error).value)
  {
  }

  /** A retry success keeps the bounds always, and the exact balance if and only if a failure was
      still counted: recovery of a failure that never reached the attempt limit breaks it. */
  lemma RetrySuccessCounters(job: Job, review: bool)
    ensures CountersBounded(job) ==> CountersBounded(CountRetrySuccess(job, review))
    ensures CountersExact(job) ==> (CountersExact(CountRetrySuccess(job, review)) <==> job.failed > 0)
  {
  }

  /** Only a running job completes; a paused or failed one can be resumed or cancelled; a completed or cancelled one is
      final. A move changes the state and nothing else. */
  lemma AllowedMoves(job: Job, target: JobState)
    ensures Transition(job, target).Some? <==>
      || target == job.state || job.state == Running
      || (job.state == Paused && target != Completed)
      || (job.state == Failed && (target == Running || target == Cancelled))
    ensures Transition(job, target).Some? ==> Transition(job, target).value == job.(state := target)
  {
  }

  /** `initialize_discovery` may write a state the transition table forbids; it does so exactly when the
      mailbox was reset and the job is already completed or cancelled. */
  lemma ResetBypassesTransitions(job: Job, uidvalidity: nat, total: nat)
    ensures var after := InitializeDiscovery(job, uidvalidity, total);
      Transition(job, after.state).None? <==>
        (UidvalidityChanged(job, uidvalidity) && (job.state == Completed || job.state == Cancelled))
  {
  }

  class BackfillRepository {
    var job: Job
    var failures: map<nat, Failure>

    constructor (job: Job)
      ensures this.job == job && failures == map[]
    {
      this.job, failures := job, map[];
    }

    method MoveTo(target: JobState) returns (ok: bool)
      modifies this`job
      ensures ok == Transition(old(job), target).Some?
      ensures job == if ok then Transition(old(job), target).value else old(job)
    {
      if target == job.state { return true; }
      if target !in AllowedTargets(job.state) { return false; }
      job := job.(state := target);
      return true;
    }

    method Discover(uidvalidity: nat, total: nat) returns (ok: bool)
      modifies this`job
      ensures job == InitializeDiscovery(old(job), uidvalidity, total)
      ensures ok == !UidvalidityChanged(old(job), uidvalidity)
    {
      if job.uidvalidity.Some? && job.uidvalidity.value != uidvalidity {
        job := job.(state := Failed, lastError := Some(Error(false)));
        return false;
      }
      job := job.(uidvalidity := Some(uidvalidity));
      if total > job.totalDiscovered { job := job.(totalDiscovered := total); }
      return true;
    }

    method Advance(uid: nat, d: Deltas, error: Option<Error>) returns (ok: bool)
      modifies this`job
      ensures ok == Checkpoint(old(job), uid, d, error).Some?
      ensures job == if ok then Checkpoint(old(job), uid, d, error).value else old(job)
    {
      if job.cursor.Some? && uid < job.cursor.value { return false; }
      job := job.(cursor := Some(uid));
      job := job.(processed := job.processed + d.processed);
      job := job.(successful := job.successful + d.successful);
      job := job.(reviewRequired := job.reviewRequired + d.review);
      job := job.(failed := job.failed + d.failed, lastError := error);
      return true;
    }

    method NoteFailure(uid: nat, error: Error) returns (attempts: nat)
      modifies this`failures
      ensures failures == RecordFailure(old(failures), uid, error)
      ensures attempts == failures[uid].attempts
    {
      if uid !in failures {
        failures := failures[uid := Failure(FailedRow, 1, Some(error))];
      } else {
        var row := failures[uid];
        failures := failures[uid := row.(attempts := row.attempts + 1, status := FailedRow, lastError := Some(error))];
      }
      attempts := failures[uid].attempts;
    }

    method MarkRetrying(uid: nat) returns (ok: bool)
      modifies this`failures
      ensures ok == (uid in old(failures) && old(failures)[uid].Unresolved())
      ensures failures == if ok then old(failures)[uid := old(failures)[uid].(status := RetryingRow)] else old(failures)
    {
      if uid !in failures || !failures[uid].Unresolved() { return false; }
      failures := failures[uid := failures[uid].(status := RetryingRow)];
      return true;
    }

    method Resolve(uid: nat)
      modifies this`failures
      ensures failures == ResolveFailure(old(failures), uid)
    {
      if uid in failures {
        failures := failures[uid := failures[uid].(status := ResolvedRow, lastError := None)];
      }
    }

    method RetrySucceeded(uid: nat, review: bool) returns (ok: bool)
      modifies this
      ensures ok == (uid in old(failures))
      ensures job == if ok then CountRetrySuccess(old(job), review) else old(job)
      ensures failures == if ok then ResolveFailure(old(failures), uid) else old(failures)
    {
      if uid !in failures { return false; }
      failures := failures[uid := failures[uid].(status := ResolvedRow, lastError := None)];
      if job.failed > 0 { job := job.(failed := job.failed - 1); }
      job := job.(successful := job.successful + 1);
      if review { job := job.(reviewRequired := job.reviewRequired + 1); }
      return true;
    }
  }
}
