/** Pausing and cancelling dry-run and review backfill, and what each step may change: attempts, proposals and the
    review counter, said of the rows themselves. */
module BulkBackfillStops {
  import opened Common
  import opened BackfillStore
  import opened HistoricalFetch
  import opened BulkBackfill
  import opened BulkBackfillSafety
  import opened BulkBackfillCalls
  import opened BulkBackfillConvergence

  // ---------------------------------------------------------------- a job that is not running

  /** In no state of this stretch is the job running. */
  ghost predicate NeverRunning(m: nat, s: System, steps: seq<Step>)
    decreases |steps|
  {
    s.world.job.state != Running && (steps != [] ==> NeverRunning(m, Apply(m, s, steps[0]), steps[1..]))
  }

  /** Steps of the batch other than recovering an old failure and recording the mailbox's size and UIDVALIDITY. */
  predicate Commits(step: Step) { step.ByBatch() && !step.Recover? && !step.Discover? }

  lemma StoppedStep(m: nat, s: System, step: Step)
    requires s.world.job.state != Running && Commits(step)
    ensures Apply(m, s, step).world == s.world
  {
  }

  /** While the job is not running such steps change no proposal, no failure, no counter and not the cursor. */
  lemma {:induction false} StoppedCommitsNothing(m: nat, s: System, steps: seq<Step>)
    requires s.world.job.state != Running && forall step <- steps :: Commits(step)
    ensures Exec(m, s, steps).world == s.world
    decreases |steps|
  {
    if steps != [] {
      StoppedStep(m, s, steps[0]);
      StoppedCommitsNothing(m, Apply(m, s, steps[0]), steps[1..]);
    }
  }

  lemma StoppedCursorStep(m: nat, s: System, step: Step)
    requires s.world.job.state != Running
    ensures var j, j' := s.world.job, Apply(m, s, step).world.job; j'.cursor == j.cursor && j'.processed == j.processed
  {
    if Commits(step) { StoppedStep(m, s, step); }
  }

  /** And whatever the batch and others do meanwhile, no message is processed until the job runs again. */
  lemma {:induction false} StoppedCursor(m: nat, s: System, steps: seq<Step>)
    requires NeverRunning(m, s, steps)
    ensures var j, j' := s.world.job, Exec(m, s, steps).world.job; j'.cursor == j.cursor && j'.processed == j.processed
    decreases |steps|
  {
    if steps != [] {
      StoppedCursorStep(m, s, steps[0]);
      StoppedCursor(m, Apply(m, s, steps[0]), steps[1..]);
    }
  }

  // ---------------------------------------------------------------- cancelling

  /** The batch in flight has still to compare the UIDVALIDITY with one already recorded. */
  predicate ResetAhead(s: System) {
    (s.local.Started? || s.local.Recovering? || s.local.Fetched?) && s.world.job.uidvalidity.Some?
  }

  lemma CancelledStep(m: nat, s: System, step: Step)
    requires s.world.job.state == Cancelled && !ResetAhead(s)
    ensures var s' := Apply(m, s, step);
      && s'.world.job.state == Cancelled && !ResetAhead(s')
      && s'.world.job.cursor == s.world.job.cursor && s'.world.job.processed == s.world.job.processed
  {
    StoppedCursorStep(m, s, step);
  }

  lemma {:induction false} CancelledStays(m: nat, s: System, steps: seq<Step>)
    requires s.world.job.state == Cancelled && !ResetAhead(s)
    ensures var j, j' := s.world.job, Exec(m, s, steps).world.job;
      j'.state == Cancelled && j'.cursor == j.cursor && j'.processed == j.processed
    decreases |steps|
  {
    if steps != [] {
      CancelledStep(m, s, steps[0]);
      CancelledStays(m, Apply(m, s, steps[0]), steps[1..]);
    }
  }

  lemma {:induction false} FirstRowsAreFirst(all: set<nat>, n: nat)
    ensures AreFirst(all, n, FirstRows(all, n))
    decreases n
  {
    if n > 0 && all != {} {
      var head := Least(all);
      var rest := FirstRows(all - {head}, n - 1);
      FirstRowsAreFirst(all - {head}, n - 1);
      HeadExtends(all, n, head, rest);
    }
  }

  lemma HeadExtends(all: set<nat>, n: nat, head: nat, rest: seq<nat>)
    requires n > 0 && IsLeast(head, all) && AreFirst(all - {head}, n - 1, rest)
    ensures AreFirst(all, n, [head] + rest)
  {
    var rows := [head] + rest;
    forall i | 0 < i < |rows| ensures rows[i] in all && head < rows[i] { assert rows[i] == rest[i - 1]; }
    forall uid <- all | uid !in rows ensures |rows| == n && forall i :: 0 <= i < |rows| ==> rows[i] < uid {
      assert uid in all - {head} && uid !in rest;
    }
  }

  lemma ListExists(w: World) returns (rows: seq<nat>)
    ensures RecoverableList(w, rows)
  {
    rows := FirstRows(RecoverableRows(w), RECOVERY_LIMIT);
    FirstRowsAreFirst(RecoverableRows(w), RECOVERY_LIMIT);
    forall uid <- w.failures | RecoverableRow(w, uid) && uid !in rows
      ensures |rows| == RECOVERY_LIMIT && rows[RECOVERY_LIMIT - 1] < uid
    {
      assert uid in RecoverableRows(w);
    }
    forall uid <- rows ensures RecoverableRow(w, uid) {
      var i :| 0 <= i < |rows| && rows[i] == uid;
      assert rows[i] in RecoverableRows(w);
    }
  }

  lemma ExecOne(m: nat, s: System, step: Step)
    ensures Exec(m, s, [step]) == Apply(m, s, step)
  {
    assert Exec(m, Apply(m, s, step), []) == Apply(m, s, step);
  }

  lemma OneFirst(m: nat, s: System, step: Step, rest: seq<Step>)
    ensures Exec(m, s, [step] + rest) == Exec(m, Apply(m, s, step), rest)
  {
    ExecOne(m, s, step);
    ExecConcat(m, s, [step], rest);
  }

  /** A batch that has not fetched can fetch one message, changing nothing. */
  lemma ToFetched(m: nat, s: System) returns (steps: seq<Step>, messages: seq<nat>, scan: nat)
    requires (s.local.Started? || s.local.Recovering?) && s.world.mailbox.Valid()
    ensures var end := Exec(m, s, steps);
      && end.world == s.world && IsBatch(s.world.mailbox, s.local.after, 1, messages, scan)
      && end.local.Fetched? && end.local.after == s.local.after && end.local.messages == messages
    decreases if s.local.Started? then 2 else if s.local.rows != [] then 1 else 0
  {
    var step;
    if s.local.Started? {
      var rows := ListExists(s.world);
      step := ListFailures(rows);
    } else if s.local.rows != [] {
      step := Recover(StopRecovery);
    } else {
      messages, scan := BatchExists(s.world.mailbox, s.local.after, 1);
      steps := [Fetch(1, messages, scan)];
      ExecOne(m, s, steps[0]);
      return;
    }
    var rest;
    rest, messages, scan := ToFetched(m, Apply(m, s, step));
    steps := [step] + rest;
    OneFirst(m, s, step, rest);
  }

  /** A fetched message is visited and committed: the cursor moves to it. */
  lemma FetchedMoves(m: nat, s: System) returns (steps: seq<Step>)
    requires s.local.Fetched? && |s.local.messages| == 1 && s.world.job.state == Running && s.world.job.uidvalidity.Some?
    requires s.world.job.Position() < s.local.messages[0]
    ensures Exec(m, s, steps).world.job.cursor == Some(s.local.messages[0])
  {
    var uid := s.local.messages[0];
    var discover := Discover(s.world.job.uidvalidity.value, 0);
    var found := Apply(m, s, discover);
    var seen := Apply(m, found, Visit);
    if uid in s.world.proposals {
      ExecOne(m, found, Visit);
      OneFirst(m, s, discover, [Visit]);
      steps := [discover] + [Visit];
    } else {
      var ready := Apply(m, seen, Visit);
      ExecOne(m, ready, Commit(Classified(false)));
      OneFirst(m, seen, Visit, [Commit(Classified(false))]);
      OneFirst(m, found, Visit, [Visit] + [Commit(Classified(false))]);
      OneFirst(m, s, discover, [Visit] + ([Visit] + [Commit(Classified(false))]));
      steps := [discover] + ([Visit] + ([Visit] + [Commit(Classified(false))]));
    }
  }

  /** A new UIDVALIDITY fails the job, cancelled or not. */
  lemma ResetFails(m: nat, s: System) returns (steps: seq<Step>)
    requires ResetAhead(s) && s.world.mailbox.Valid()
    ensures var end := Exec(m, s, steps);
      && end.local.Idle? && end.world.mailbox == s.world.mailbox
      && end.world.job == s.world.job.(state := Failed, lastError := Some(Error(false)))
  {
    var reset := Discover(s.world.job.uidvalidity.value + 1, 0);
    if s.local.Fetched? {
      steps := [reset];
      ExecOne(m, s, reset);
    } else {
      var messages, scan;
      steps, messages, scan := ToFetched(m, s);
      ExecExtend(m, s, steps, reset);
      steps := steps + [reset];
    }
  }

  /** A failed job is resumed, a message arrives, and the next batch processes a message beyond the cursor. */
  lemma FailedMoves(m: nat, s: System) returns (steps: seq<Step>)
    requires s.local.Idle? && s.world.job.state == Failed && s.world.job.uidvalidity.Some?
    requires s.world.mailbox.Valid() && s.world.job.Position() < s.world.mailbox.uidNext
    ensures Exec(m, s, steps).world.job.cursor != s.world.job.cursor
  {
    var resumed := Apply(m, s, SetState(Running));
    var delivered := Apply(m, resumed, Deliver);
    var begun := Apply(m, delivered, Begin);
    assert s.world.mailbox.uidNext in begun.world.mailbox.uids;
    var fetch, messages, scan := ToFetched(m, begun);
    OneBeyond(begun.world.mailbox, begun.local.after, messages, scan, s.world.mailbox.uidNext);
    var move := FetchedMoves(m, Exec(m, begun, fetch));
    ExecConcat(m, begun, fetch, move);
    OneFirst(m, delivered, Begin, fetch + move);
    OneFirst(m, resumed, Deliver, [Begin] + (fetch + move));
    OneFirst(m, s, SetState(Running), [Deliver] + ([Begin] + (fetch + move)));
    steps := [SetState(Running)] + ([Deliver] + ([Begin] + (fetch + move)));
  }

  lemma OneBeyond(mailbox: Mailbox, after: nat, messages: seq<nat>, scan: nat, last: nat)
    requires IsBatch(mailbox, after, 1, messages, scan) && last in mailbox.uids && after < last && last + 1 == mailbox.uidNext
    ensures |messages| == 1 && after < messages[0]
  {
    assert |messages| == 0 ==> last in messages;
    assert |messages| > 0 ==> messages[0] in messages;
  }

  /** After a cancel the cursor is fixed for ever if and only if no batch in flight has still to compare the mailbox's
      UIDVALIDITY with a recorded one: a changed UIDVALIDITY fails the cancelled job, and a failed job may be resumed. */
  lemma CancelledForGoodIff(m: nat, s: System)
    requires s.world.job.state == Cancelled && s.world.mailbox.Valid() && s.world.job.Position() < s.world.mailbox.uidNext
    ensures (forall steps :: Exec(m, s, steps).world.job.cursor == s.world.job.cursor) <==> !ResetAhead(s)
  {
    if ResetAhead(s) {
      var reset := ResetFails(m, s);
      var move := FailedMoves(m, Exec(m, s, reset));
      ExecConcat(m, s, reset, move);
    } else {
      forall steps ensures Exec(m, s, steps).world.job.cursor == s.world.job.cursor { CancelledStays(m, s, steps); }
    }
  }

  // ---------------------------------------------------------------- attempts

  function Attempts(w: World, uid: nat): nat { if uid in w.failures then w.failures[uid].attempts else 0 }

  /** A running job commits an error of this message that is not transient, or its manual retry fails. */
  predicate SpendsAttempt(s: System, step: Step, uid: nat) {
    || (step.Commit? && step.outcome.Broken? && s.world.job.state == Running
        && s.local.Committing? && s.local.pending != [] && s.local.pending[0] == uid)
    || (step.RetryFails? && step.uid == uid && uid in s.world.retrying && uid in s.world.failures)
  }

  /** Such a step costs exactly one attempt; nothing else, and no transient error, changes the number. */
  lemma AttemptsSpent(m: nat, s: System, step: Step, uid: nat)
    ensures Attempts(Apply(m, s, step).world, uid)
         == Attempts(s.world, uid) + (if SpendsAttempt(s, step, uid) then 1 else 0)
  {
  }

  /** A transient error leaves everything as it was and ends the batch without reaching its end. */
  lemma TransientChangesNothing(m: nat, s: System)
    requires s.local.Committing? && s.local.pending != []
    ensures var s' := Apply(m, s, Commit(Transient));
      s'.world == s.world && s'.local == Finishing(s.local.after, false, s.local.scan, s.local.done)
  {
  }

  // ---------------------------------------------------------------- proposals and the review counter

  /** The review flag with which this step makes a proposal for this message, if it does. */
  function Proposes(s: System, step: Step, uid: nat): Option<bool> {
    match step
    case Commit(outcome) =>
      if outcome.Classified? && s.world.job.state == Running && s.local.Committing? && s.local.pending != [] && s.local.pending[0] == uid
      then Some(outcome.review) else None
    case Recover(recovery) =>
      if recovery.Recovered? && s.local.Recovering? && s.local.rows != [] && s.local.rows[0] == uid
         && uid in s.world.mailbox.uids && uid in s.world.failures
      then Some(recovery.review) else None
    case RetrySucceeds(u, review) => if u == uid && uid in s.world.retrying && uid in s.world.failures then Some(review) else None
    case _ => None
  }

  /** A proposal appears exactly when a step makes one for a message without any, with that step's flag; it never goes,
      and its flag changes only by confirming. */
  lemma ProposalsMade(m: nat, s: System, step: Step, uid: nat)
    ensures var p, p', made := s.world.proposals, Apply(m, s, step).world.proposals, Proposes(s, step, uid);
      && (uid in p' <==> uid in p || made.Some?)
      && (uid !in p && uid in p' ==> p'[uid] == made.value)
      && (uid in p ==> p'[uid] == if step == Confirm(uid) then false else p[uid])
  {
  }

  /** The review flag of the success this step counts: of the proposal it visits, or of the one it makes. */
  function Success(s: System, step: Step): Option<bool> {
    var w, l := s.world, s.local;
    match step
    case Visit =>
      if w.job.state == Running && l.Visiting? && l.unseen != [] && l.unseen[0] in w.proposals
      then Some(w.proposals[l.unseen[0]]) else None
    case Commit(_) => if l.Committing? && l.pending != [] then Proposes(s, step, l.pending[0]) else None
    case Recover(_) => if l.Recovering? && l.rows != [] then Proposes(s, step, l.rows[0]) else None
    case RetrySucceeds(uid, _) => Proposes(s, step, uid)
    case _ => None
  }

  function One(b: bool): nat { if b then 1 else 0 }

  /** Each such success is counted once, unless the cursor would go back, and as needing review exactly with its flag. */
  lemma ReviewCounted(m: nat, s: System, step: Step)
    requires !Apply(m, s, step).local.Raised?
    ensures var j, j' := s.world.job, Apply(m, s, step).world.job;
      && j'.successful == j.successful + One(Success(s, step).Some?)
      && j'.reviewRequired == j.reviewRequired + One(Success(s, step) == Some(true))
  {
  }

  /** Successes of a run that needed review. */
  ghost function Reviews(m: nat, s: System, steps: seq<Step>): nat
    decreases |steps|
  {
    if steps == [] then 0 else One(Success(s, steps[0]) == Some(true)) + Reviews(m, Apply(m, s, steps[0]), steps[1..])
  }

  lemma {:induction false} ReviewsCounted(m: nat, s: System, steps: seq<Step>)
    requires m > 0 && Inv(m, s)
    ensures Exec(m, s, steps).world.job.reviewRequired == s.world.job.reviewRequired + Reviews(m, s, steps)
    decreases |steps|
  {
    if steps != [] {
      ExecKeeps(m, s, [steps[0]]);
      ExecOne(m, s, steps[0]);
      ReviewCounted(m, s, steps[0]);
      ReviewsCounted(m, Apply(m, s, steps[0]), steps[1..]);
    }
  }

  /** From the start the review counter is the number of counted successes that needed review. */
  lemma ReviewsFromStart(m: nat, mailbox: Mailbox, steps: seq<Step>)
    requires m > 0 && mailbox.Valid()
    ensures Exec(m, Start(mailbox), steps).world.job.reviewRequired == Reviews(m, Start(mailbox), steps)
  {
    ReviewsCounted(m, Start(mailbox), steps);
  }

  // ---------------------------------------------------------------- failure rows

  /** What a step leaves of the failure row of this message. */
  function RowAfter(m: nat, s: System, step: Step, uid: nat): Option<Failure> {
    var rows := s.world.failures;
    var row := if uid in rows then Some(rows[uid]) else None;
    if SpendsAttempt(s, step, uid) then
      Some(Failure(FailedRow, Attempts(s.world, uid) + 1, Some(if step.Commit? then step.outcome.error else step.error)))
    else if row.None? then None
    else if Proposes(s, step, uid).Some? then Some(Failure(ResolvedRow, row.value.attempts, None))
    else if step == RequestRetry(uid) && row.value.attempts >= m && (row.value.status == FailedRow || row.value.status == ReviewRow) then
      Some(row.value.(status := RetryingRow))
    else if step.RestoreFailure? && step.uid == uid && row.value.status == RetryingRow && uid !in s.world.retrying then
      Some(row.value.(status := FailedRow, lastError := if step.reason.Some? then step.reason else row.value.lastError))
    else row
  }

  /** A row fails with one attempt more, is resolved when its message gets a proposal, is retried by hand only once its
      attempts are used up, and falls back to failed only if no retry is under way; else it stays. */
  lemma FailureRows(m: nat, s: System, step: Step, uid: nat)
    ensures var rows' := Apply(m, s, step).world.failures;
      RowAfter(m, s, step, uid) == if uid in rows' then Some(rows'[uid]) else None
  {
  }

  /** A batch recovers at most five old failures: the first ones not resolved whose error is known to pass. */
  lemma AtMostFiveRecovered(m: nat, s: System, rows: seq<nat>)
    requires s.local.Started? && Apply(m, s, ListFailures(rows)).local == Recovering(s.local.after, rows)
    ensures |rows| <= 5 && Ascending(rows)
    ensures forall uid <- s.world.failures ::
      var row := s.world.failures[uid];
      var open := (row.status == FailedRow || row.status == ReviewRow) && row.lastError == Some(Error(true));
      && (uid in rows ==> open)
      && (open && uid !in rows ==> |rows| == 5 && rows[4] < uid)
  {
    assert RecoverableList(s.world, rows);
    forall uid <- s.world.failures ensures RecoverableRow(s.world, uid) <==>
      (s.world.failures[uid].status == FailedRow || s.world.failures[uid].status == ReviewRow)
      && s.world.failures[uid].lastError == Some(Error(true)) { }
  }

  // ---------------------------------------------------------------- the job

  /** A batch that saw the end of the mailbox closes a running job. */
  predicate Completes(s: System, step: Step) {
    step.Finish? && s.local.Finishing? && s.local.reachedEnd && s.local.done && s.world.job.state == Running
  }

  /** A mailbox is found with another UIDVALIDITY than recorded. */
  predicate FindsReset(s: System, step: Step) {
    step.Discover? && s.local.Fetched? && s.world.job.uidvalidity.Some? && s.world.job.uidvalidity.value != step.uidvalidity
  }

  /** A person may do this to the job. */
  predicate MaySet(job: Job, target: JobState) {
    match target
    case Running => job.state == Paused || job.state == Failed
    case Paused => job.state == Running
    case Cancelled => job.state == Running || job.state == Paused || job.state == Failed
    case Failed => job.state == Running || job.state == Paused
    case Completed => false
  }

  /** A job is completed only by a batch at the end of the mailbox, fails on a reset whatever its state, and is else
      paused, resumed, cancelled or failed by others; completed and cancelled are final but for a reset. */
  lemma JobStates(m: nat, s: System, step: Step)
    requires !Apply(m, s, step).local.Raised?
    ensures Apply(m, s, step).world.job.state
         == if Completes(s, step) then Completed
            else if FindsReset(s, step) then Failed
            else if step.SetState? && MaySet(s.world.job, step.target) then step.target
            else s.world.job.state
  {
  }

  /** From any state the cursor never goes back, and the size recorded is the largest ever reported. */
  lemma CursorAndSizeGrow(m: nat, s: System, step: Step)
    ensures var j, j' := s.world.job, Apply(m, s, step).world.job;
      && j.Position() <= j'.Position() && (j.cursor.Some? ==> j'.cursor.Some?)
      && j'.totalDiscovered
           == if step.Discover? && s.local.Fetched? && !FindsReset(s, step) && step.total > j.totalDiscovered then step.total
              else j.totalDiscovered
  {
  }

  /** The error shown with the job is that of the last message counted or, after a reset, the reset's. */
  lemma LastErrorShown(m: nat, s: System, step: Step)
    ensures var j, j' := s.world.job, Apply(m, s, step).world.job;
      && (FindsReset(s, step) ==> j'.lastError.Some?)
      && (j'.cursor != j.cursor && j.cursor.Some? ==>
            j'.lastError == if step.Commit? && step.outcome.Broken? then Some(step.outcome.error) else None)
  {
  }
}
