/** When `processed == successful + failed` holds in dry-run and review backfill, and a run in which it fails. */
module BulkBackfillCounters {
  import opened Common
  import opened BackfillStore
  import opened HistoricalFetch
  import opened BulkBackfill
  import opened BulkBackfillSafety

  /** The step counts a recovered or retried failure as successful. */
  predicate Recovers(s: System, step: Step) {
    var w, l := s.world, s.local;
    match step
    case Recover(recovery) =>
      l.Recovering? && l.rows != [] && recovery.Recovered? && l.rows[0] in w.mailbox.uids && l.rows[0] in w.failures
    case RetrySucceeds(uid, _) => uid in w.retrying && uid in w.failures
    case _ => false
  }

  lemma RecoveryBalance(m: nat, s: System, step: Step)
    requires CountersExact(s.world.job) && Recovers(s, step)
    ensures CountersExact(Apply(m, s, step).world.job) <==> s.world.job.failed > 0
  {
  }

  lemma CommitBalance(m: nat, w: World, uid: nat, outcome: Outcome)
    requires CountersExact(w.job)
    ensures CountersExact(CommitOne(m, w, uid, outcome).0.job)
  {
  }

  lemma FinishBalance(w: World, reachedEnd: bool, scan: nat, done: bool)
    requires CountersExact(w.job)
    ensures CountersExact(FinishOne(w, reachedEnd, scan, done).0.job)
  {
  }

  lemma BatchBalance(m: nat, s: System, step: Step)
    requires CountersExact(s.world.job) && !Recovers(s, step) && step.ByBatch()
    ensures CountersExact(Apply(m, s, step).world.job)
  {
    var l := s.local;
    match step
    case Commit(outcome) => if l.Committing? && l.pending != [] { CommitBalance(m, s.world, l.pending[0], outcome); }
    case Finish => if l.Finishing? { FinishBalance(s.world, l.reachedEnd, l.scan, l.done); }
    case _ =>
  }

  /** One step breaks the balance exactly if it recovers a failure while none is counted. */
  lemma StepBalance(m: nat, s: System, step: Step)
    requires CountersExact(s.world.job)
    ensures CountersExact(Apply(m, s, step).world.job) <==> (Recovers(s, step) ==> s.world.job.failed > 0)
  {
    if Recovers(s, step) {
      RecoveryBalance(m, s, step);
    } else if step.ByBatch() {
      BatchBalance(m, s, step);
    }
  }

  ghost predicate AlwaysExact(m: nat, s: System, steps: seq<Step>)
    decreases |steps|
  {
    CountersExact(s.world.job) && (steps == [] || AlwaysExact(m, Apply(m, s, steps[0]), steps[1..]))
  }

  /** Every recovery and every successful retry of the run meets a counted failure. */
  ghost predicate RecoversCounted(m: nat, s: System, steps: seq<Step>)
    decreases |steps|
  {
    steps == []
    || ((Recovers(s, steps[0]) ==> s.world.job.failed > 0) && RecoversCounted(m, Apply(m, s, steps[0]), steps[1..]))
  }

  lemma {:induction false} ExactIffCounted(m: nat, s: System, steps: seq<Step>)
    requires CountersExact(s.world.job)
    ensures AlwaysExact(m, s, steps) <==> RecoversCounted(m, s, steps)
    decreases |steps|
  {
    if steps != [] {
      StepBalance(m, s, steps[0]);
      if CountersExact(Apply(m, s, steps[0]).world.job) { ExactIffCounted(m, Apply(m, s, steps[0]), steps[1..]); }
    }
  }

  /** From the start, every state of a run is balanced if and only if every recovery and every successful retry met
      a counted failure. */
  lemma BalancedRuns(m: nat, mailbox: Mailbox, steps: seq<Step>)
    ensures AlwaysExact(m, Start(mailbox), steps) <==> RecoversCounted(m, Start(mailbox), steps)
  {
    ExactIffCounted(m, Start(mailbox), steps);
  }

  // ---------------------------------------------------------------- a run that fails

  /** One batch up to its first visit. */
  function Opening(rows: seq<nat>, first: nat, recovery: seq<Step>, total: nat): seq<Step> {
    [Begin, ListFailures(rows)] + recovery + [Fetch(1, [first], first), Discover(1, total), Visit]
  }

  /** A first batch whose message fails once, recoverably, and a second that recovers it and then visits it. */
  function FailingRun(first: nat, total: nat, review: bool): seq<Step> {
    Opening([], first, [], total) + [Visit, Commit(Broken(Error(true))), Finish]
    + Opening([first], first, [Recover(Recovered(review))], total)
  }

  lemma ExecThree(m: nat, s: System, a: Step, b: Step, c: Step)
    ensures Exec(m, s, [a, b, c]) == Apply(m, Apply(m, Apply(m, s, a), b), c)
  {
    assert [a, b, c][1..] == [b, c] && [b, c][1..] == [c];
    assert Exec(m, Apply(m, Apply(m, s, a), b), [c]) == Exec(m, Apply(m, Apply(m, Apply(m, s, a), b), c), []);
  }

  /** Fetch, discover and visit the first message, which has a proposal or not. */
  lemma FetchFirst(m: nat, s: System, first: nat, total: nat)
    requires s.local == Recovering(0, []) && s.world.job.state == Running && s.world.job.cursor == None
    requires s.world.mailbox.Valid() && first in s.world.mailbox.uids && forall u <- s.world.mailbox.uids :: first <= u
    requires s.world.job.uidvalidity == None || s.world.job.uidvalidity == Some(1)
    ensures var done := first + 1 >= s.world.mailbox.uidNext;
      var discovered := s.world.(job := InitializeDiscovery(s.world.job, 1, total));
      Exec(m, s, [Fetch(1, [first], first), Discover(1, total), Visit])
      == VisitNext(discovered, Visiting(0, [], [first], first, done))
  {
    var mailbox := s.world.mailbox;
    assert IsBatch(mailbox, 0, 1, [first], first);
    ExecThree(m, s, Fetch(1, [first], first), Discover(1, total), Visit);
  }

  lemma FirstOpening(m: nat, mailbox: Mailbox, first: nat, total: nat) returns (s: System)
    requires mailbox.Valid() && first in mailbox.uids && forall u <- mailbox.uids :: first <= u
    ensures s == Exec(m, Start(mailbox), Opening([], first, [], total))
    ensures s == Exec(m, Start(mailbox).(local := Recovering(0, [])), [Fetch(1, [first], first), Discover(1, total), Visit])
  {
    var s0 := Start(mailbox);
    var s1 := Apply(m, s0, Begin);
    var three := [Fetch(1, [first], first), Discover(1, total), Visit];
    assert RecoverableList(s1.world, []);
    assert Opening([], first, [], total) == [Begin, ListFailures([])] + three;
    ExecOpening(m, s0, ListFailures([]), three);
    s := Exec(m, Apply(m, s1, ListFailures([])), three);
  }

  lemma FirstBatch(m: nat, mailbox: Mailbox, first: nat, total: nat) returns (s: System)
    requires m > 1 && mailbox.Valid() && first in mailbox.uids && forall u <- mailbox.uids :: first <= u
    ensures s == Exec(m, Start(mailbox), Opening([], first, [], total) + [Visit, Commit(Broken(Error(true))), Finish])
    ensures s == System(World(InitializeDiscovery(NewJob(), 1, total), map[first := Failure(FailedRow, 1, Some(Error(true)))],
                              map[], mailbox, {}), Idle)
  {
    var tail := [Visit, Commit(Broken(Error(true))), Finish];
    var begun := FirstOpening(m, mailbox, first, total);
    FetchFirst(m, Start(mailbox).(local := Recovering(0, [])), first, total);
    ExecThree(m, begun, Visit, Commit(Broken(Error(true))), Finish);
    s := Exec(m, begun, tail);
    ExecConcat(m, Start(mailbox), Opening([], first, [], total), tail);
  }

  lemma ExecOpening(m: nat, s: System, listing: Step, rest: seq<Step>)
    ensures Exec(m, s, [Begin, listing] + rest) == Exec(m, Apply(m, Apply(m, s, Begin), listing), rest)
  {
    var steps := [Begin, listing] + rest;
    assert steps[1..] == [listing] + rest && steps[1..][1..] == rest;
  }

  lemma SecondBatch(m: nat, s: System, first: nat, total: nat, review: bool)
    requires s.local == Idle && s.world.job.state == Running && s.world.job.cursor == None
    requires s.world.job.uidvalidity == Some(1) && s.world.job.failed == 0 && CountersExact(s.world.job)
    requires s.world.mailbox.Valid() && first in s.world.mailbox.uids && forall u <- s.world.mailbox.uids :: first <= u
    requires s.world.failures == map[first := Failure(FailedRow, 1, Some(Error(true)))] && first !in s.world.proposals
    ensures var end := Exec(m, s, Opening([first], first, [Recover(Recovered(review))], total)).world.job;
      end.processed == s.world.job.processed + 1 && end.successful == s.world.job.successful + 2 && end.failed == 0
  {
    var three := [Fetch(1, [first], first), Discover(1, total), Visit];
    var recover := Recover(Recovered(review));
    var s1 := Apply(m, s, Begin);
    assert RecoverableList(s1.world, [first]);
    var s2 := Apply(m, s1, ListFailures([first]));
    assert s2.local == Recovering(0, [first]);
    var s3 := Apply(m, s2, recover);
    assert s3.local == Recovering(0, []);
    FetchFirst(m, s3, first, total);
    ExecOpening(m, s, ListFailures([first]), [recover] + three);
    assert ([recover] + three)[1..] == three;
    assert Opening([first], first, [recover], total) == [Begin, ListFailures([first])] + ([recover] + three);
  }

  /** For every nonempty mailbox and any attempt limit above one, this run from the start processes one message and
      counts two successes. */
  lemma RecoveryCountsTwice(m: nat, mailbox: Mailbox, first: nat, total: nat, review: bool)
    requires m > 1 && mailbox.Valid() && first in mailbox.uids && forall u <- mailbox.uids :: first <= u
    ensures var end := Exec(m, Start(mailbox), FailingRun(first, total, review)).world.job;
      end.processed == 1 && end.successful == 2 && end.failed == 0 && !CountersExact(end)
  {
    var s := FirstBatch(m, mailbox, first, total);
    SecondBatch(m, s, first, total, review);
    ExecConcat(m, Start(mailbox), Opening([], first, [], total) + [Visit, Commit(Broken(Error(true))), Finish],
      Opening([first], first, [Recover(Recovered(review))], total));
  }
}
