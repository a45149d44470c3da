/** Pausing and cancelling apply-mode backfill, and what each step counts, said of the rows themselves. */
module ApplyBackfillStops {
  import opened Common
  import opened BackfillStore
  import HistoricalFetch
  import opened ApplyBackfill
  import opened ApplyBackfillCounters

  // ---------------------------------------------------------------- counting what was handled

  /** The row of this message says it needs review. */
  predicate NeedsReview(w: World, uid: nat) { uid in w.handled && w.handled[uid] }

  /** The message whose success this step counts: one found handled, one whose row was just written, or a retried
      one. */
  function Counted(s: System, step: Step): Option<nat> {
    var w, l := s.world, s.local;
    match step
    case Check =>
      if l.Looping? && l.rest != [] && w.job.state == Running && l.rest[0] in w.handled then Some(l.rest[0]) else None
    case Commit => if l.Recorded? && l.rest != [] then Some(l.rest[0]) else None
    case RetrySucceeds(uid) => if uid in w.retrying && uid in w.failures then Some(uid) else None
    case _ => None
  }

  function One(b: bool): nat { if b then 1 else 0 }

  /** Each of them is counted successful once, and as needing review if and only if its row says so. */
  lemma ReviewCounted(m: nat, s: System, step: Step)
    requires !Apply(m, s, step).local.Raised?
    ensures var j, j', counted := s.world.job, Apply(m, s, step).world.job, Counted(s, step);
      && j'.successful == j.successful + One(counted.Some?)
      && j'.reviewRequired == j.reviewRequired + One(counted.Some? && NeedsReview(s.world, counted.value))
  {
  }

  /** So a step that raises `successful` raises `reviewRequired` by one exactly if the row of the message it counted
      needs review. */
  lemma RaisedTogether(m: nat, s: System, step: Step)
    requires !Apply(m, s, step).local.Raised?
    ensures var j, j' := s.world.job, Apply(m, s, step).world.job;
      if j'.successful > j.successful
      then Counted(s, step).Some? && (j'.reviewRequired == j.reviewRequired + 1 <==> NeedsReview(s.world, Counted(s, step).value))
      else j'.reviewRequired == j.reviewRequired
  {
    ReviewCounted(m, s, step);
  }

  /** Successes of a run, and those whose row needed review when they were counted. */
  ghost function Successes(m: nat, s: System, steps: seq<Step>): nat
    decreases |steps|
  {
    if steps == [] then 0 else One(Counted(s, steps[0]).Some?) + Successes(m, Apply(m, s, steps[0]), steps[1..])
  }

  ghost function Reviews(m: nat, s: System, steps: seq<Step>): nat
    decreases |steps|
  {
    if steps == [] then 0
    else
      One(Counted(s, steps[0]).Some? && NeedsReview(s.world, Counted(s, steps[0]).value))
      + Reviews(m, Apply(m, s, steps[0]), steps[1..])
  }

  lemma {:induction false} RunCounted(m: nat, s: System, steps: seq<Step>)
    requires m > 0 && Inv(m, s)
    ensures var j, j' := s.world.job, Exec(m, s, steps).world.job;
      && j'.successful == j.successful + Successes(m, s, steps)
      && j'.reviewRequired == j.reviewRequired + Reviews(m, s, steps)
    decreases |steps|
  {
    if steps != [] {
      ExecKeeps(m, s, [steps[0]]);
      ExecOne(m, s, steps[0], []);
      assert [steps[0]] + [] == [steps[0]];
      ReviewCounted(m, s, steps[0]);
      RunCounted(m, Apply(m, s, steps[0]), steps[1..]);
    }
  }

  /** From the start, the two counters are the number of counted successes and of those that needed review. */
  lemma ReviewsFromStart(m: nat, mailbox: HistoricalFetch.Mailbox, handled: map<nat, bool>, steps: seq<Step>)
    requires m > 0 && mailbox.Valid()
    ensures var start := Start(mailbox, handled);
      && Exec(m, start, steps).world.job.successful == Successes(m, start, steps)
      && Exec(m, start, steps).world.job.reviewRequired == Reviews(m, start, steps)
  {
    RunCounted(m, Start(mailbox, handled), steps);
  }

  /** The batch passes the head of its list: it counts it once as processed, as successful if it has a row, else as
      failed, and the cursor is there. */
  lemma PassedIsCounted(m: nat, s: System, step: Step)
    requires (s.local.Looping? || s.local.Working? || s.local.Recorded?) && s.local.rest != [] && step.ByBatch()
    requires Apply(m, s, step).local == Looping(s.local.rest[1..], s.local.scan, s.local.done)
    ensures var j, w', head := s.world.job, Apply(m, s, step).world, s.local.rest[0];
      && w'.job.cursor == Some(head) && w'.job.processed == j.processed + 1
      && (if step.Process? then step.outcome.Broken? && w'.job.failed == j.failed + 1 && w'.job.successful == j.successful
          else w'.job.successful == j.successful + 1 && w'.job.failed == j.failed)
  {
    assert s.local.rest[1..] != s.local.rest;
  }

  /** The pipeline's row is written for the message in hand, with the flag the pipeline gives it; rows never go. */
  lemma RowsWritten(m: nat, s: System, step: Step, uid: nat)
    ensures var h, h' := s.world.handled, Apply(m, s, step).world.handled;
      var written := step.Process? && step.outcome.Handled? && s.local.Working? && s.local.rest != [] && s.local.rest[0] == uid;
      var elsewhere := step.HandledElsewhere? && step.uid == uid && uid !in h;
      && (uid in h' <==> uid in h || written || elsewhere)
      && (uid in h' ==> h'[uid] == if written then step.outcome.review else if elsewhere then step.review else h[uid])
  {
  }

  // ---------------------------------------------------------------- attempts

  function Attempts(w: World, uid: nat): nat { if uid in w.failures then w.failures[uid].attempts else 0 }

  /** The pipeline fails on this message, or its manual retry does. */
  predicate SpendsAttempt(s: System, step: Step, uid: nat) {
    || (step.Process? && step.outcome.Broken? && s.local.Working? && s.local.rest != [] && s.local.rest[0] == uid)
    || (step.RetryFails? && step.uid == uid && uid in s.world.retrying && uid in s.world.failures)
  }

  /** Such a step costs exactly one attempt, and nothing else changes the number. */
  lemma AttemptsSpent(m: nat, s: System, step: Step, uid: nat)
    ensures Attempts(Apply(m, s, step).world, uid)
         == Attempts(s.world, uid) + One(SpendsAttempt(s, step, uid))
  {
  }

  // ---------------------------------------------------------------- a job that is not running

  /** In no state of this stretch is the job running. */
  ghost predicate NeverRunning(m: nat, s: System, steps: seq<Step>)
    decreases |steps|
  {
    s.world.job.state != Running && (steps != [] ==> NeverRunning(m, Apply(m, s, steps[0]), steps[1..]))
  }

  /** A message is with the pipeline, or its row waits to be counted. */
  predicate InHand(l: Local) { l.Working? || l.Recorded? }

  lemma StoppedStep(m: nat, s: System, step: Step)
    requires s.world.job.state != Running && !InHand(s.local)
    ensures var s' := Apply(m, s, step);
      && !InHand(s'.local) && s'.world.job.cursor == s.world.job.cursor && s'.world.job.processed == s.world.job.processed
      && (step.ByBatch() ==> s'.world == s.world.(job := s'.world.job))
  {
  }

  /** While the job is not running no message is given to the pipeline; but for a message already in hand, none is
      processed. */
  lemma {:induction false} StoppedCursor(m: nat, s: System, steps: seq<Step>)
    requires NeverRunning(m, s, steps) && !InHand(s.local)
    ensures var s' := Exec(m, s, steps);
      !InHand(s'.local) && s'.world.job.cursor == s.world.job.cursor && s'.world.job.processed == s.world.job.processed
    decreases |steps|
  {
    if steps != [] {
      StoppedStep(m, s, steps[0]);
      StoppedCursor(m, Apply(m, s, steps[0]), steps[1..]);
    }
  }

  /** The message in hand is still counted, pause or cancel notwithstanding. */
  lemma InHandIsCounted(m: nat, s: System)
    requires s.local.Recorded? && s.local.rest != [] && (s.world.job.cursor.Some? ==> s.world.job.cursor.value <= s.local.rest[0])
    ensures var s' := Apply(m, s, Commit);
      && s'.world.job.cursor == Some(s.local.rest[0]) && s'.world.job.processed == s.world.job.processed + 1
      && s'.world.job.state == s.world.job.state
  {
  }

  /** The batch in flight has still to compare the UIDVALIDITY with one already recorded. */
  predicate ResetAhead(s: System) {
    (s.local.Started? || s.local.Fetched?) && s.world.job.uidvalidity.Some?
  }

  lemma CancelledStep(m: nat, s: System, step: Step)
    requires s.world.job.state == Cancelled && !InHand(s.local) && !ResetAhead(s)
    ensures Apply(m, s, step).world.job.state == Cancelled && !ResetAhead(Apply(m, s, step))
  {
  }

  /** After a cancel with no message in hand and no UIDVALIDITY to compare, no message is ever processed. */
  lemma {:induction false} CancelledForGood(m: nat, s: System, steps: seq<Step>)
    requires s.world.job.state == Cancelled && !InHand(s.local) && !ResetAhead(s)
    ensures var j, j' := s.world.job, Exec(m, s, steps).world.job;
      j'.state == Cancelled && j'.cursor == j.cursor && j'.processed == j.processed
    decreases |steps|
  {
    if steps != [] {
      StoppedStep(m, s, steps[0]);
      CancelledStep(m, s, steps[0]);
      CancelledForGood(m, Apply(m, s, steps[0]), steps[1..]);
    }
  }

  // ---------------------------------------------------------------- failure rows and the job

  /** What a step leaves of the failure row of this message. */
  function RowAfter(m: nat, s: System, step: Step, uid: nat): Option<Failure> {
    var rows := s.world.failures;
    var row := if uid in rows then Some(rows[uid]) else None;
    if SpendsAttempt(s, step, uid) then
      Some(Failure(FailedRow, Attempts(s.world, uid) + 1, Some(if step.Process? then step.outcome.error else step.error)))
    else if row.None? then None
    else if Counted(s, step) == Some(uid) then Some(Failure(ResolvedRow, row.value.attempts, None))
    else if step == RequestRetry(uid) && row.value.attempts >= m && (row.value.status == FailedRow || row.value.status == ReviewRow) then
      Some(row.value.(status := RetryingRow))
    else if step.RestoreFailure? && step.uid == uid && row.value.status == RetryingRow && uid !in s.world.retrying then
      Some(row.value.(status := FailedRow, lastError := if step.reason.Some? then step.reason else row.value.lastError))
    else row
  }

  /** A row fails with one attempt more, is resolved when its message is counted successful, is retried by hand only once
      its attempts are used up, and falls back to failed only if no retry is under way; else it stays. */
  lemma FailureRows(m: nat, s: System, step: Step, uid: nat)
    requires !Apply(m, s, step).local.Raised?
    ensures var rows' := Apply(m, s, step).world.failures;
      RowAfter(m, s, step, uid) == if uid in rows' then Some(rows'[uid]) else None
  {
  }

  /** A batch that saw the end of the mailbox and did not yield closes a running job. */
  predicate Completes(s: System, step: Step) {
    step.Finish? && s.local.Finishing? && !s.local.yielded && s.local.done && s.world.job.state == Running
  }

  /** A mailbox is found with another UIDVALIDITY than recorded. */
  predicate FindsReset(s: System, step: Step) {
    step.Discover? && s.local.Fetched? && s.world.job.uidvalidity.Some? && s.world.job.uidvalidity.value != step.uidvalidity
  }

  /** A person may do this to the job. */
  predicate MaySet(job: Job, target: JobState) {
    match target
    case Running => job.state == Paused || job.state == Failed
    case Paused => job.state == Running
    case Cancelled => job.state == Running || job.state == Paused || job.state == Failed
    case Failed => job.state == Running || job.state == Paused
    case Completed => false
  }

  /** A job is completed only by a batch that saw the end of the mailbox, fails on a reset whatever its state, and is
      else paused, resumed, cancelled or failed by others. */
  lemma JobStates(m: nat, s: System, step: Step)
    requires !Apply(m, s, step).local.Raised?
    ensures Apply(m, s, step).world.job.state
         == if Completes(s, step) then Completed
            else if FindsReset(s, step) then Failed
            else if step.SetState? && MaySet(s.world.job, step.target) then step.target
            else s.world.job.state
  {
  }

  /** From any state the cursor never goes back. */
  lemma CursorGrows(m: nat, s: System, step: Step)
    ensures s.world.job.Position() <= Apply(m, s, step).world.job.Position()
  {
  }
}
