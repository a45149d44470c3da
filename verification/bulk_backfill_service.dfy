/** `run_batch` of the dry-run and review service as the source writes it, with its loops, flags and
    early exits, and with other processes acting between any two of its transactions. Each method ends where
    the turns of the machine that its inputs determine lead. */
module BulkBackfillServices {
  import opened Common
  import opened BackfillStore
  import opened HistoricalFetch
  import opened BulkBackfill
  import opened BulkBackfillSafety
  import opened BulkBackfillCalls

  class BulkBackfillService {
    const maxAttempts: nat
    const repo: BackfillRepository
    var proposals: map<nat, bool>
    var mailbox: Mailbox
    var retrying: set<nat>

    ghost function State(): World
      reads this, repo
    {
      World(repo.job, repo.failures, proposals, mailbox, retrying)
    }

    constructor (maxAttempts: nat, mailbox: Mailbox)
      ensures State() == Start(mailbox).world && this.maxAttempts == maxAttempts && fresh(repo)
    {
      this.maxAttempts := maxAttempts;
      repo := new BackfillRepository(NewJob());
      proposals, retrying := map[], {};
      this.mailbox := mailbox;
    }

    // -------------------------------------------------------------- other processes

    method RetrySucceeded(uid: nat, review: bool)
      requires uid in repo.failures
      modifies this, repo
      ensures State() == RetrySuccess(old(State()), uid, review)
      ensures repo.job.uidvalidity == old(repo.job.uidvalidity)
    {
      if uid !in proposals { proposals := proposals[uid := review]; }
      var ok := repo.RetrySucceeded(uid, review);
    }

    /** One request handler or retry worker transaction. */
    method Perform(step: Step)
      requires !step.ByBatch()
      modifies this, repo
      ensures State() == WorldStep(maxAttempts, old(State()), step)
      ensures repo.job.uidvalidity == old(repo.job.uidvalidity)
    {
      match step
      case SetState(target) =>
        if target != Completed { var ok := repo.MoveTo(target); }
      case RequestRetry(uid) =>
        if uid in repo.failures && repo.failures[uid].attempts >= maxAttempts {
          var ok := repo.MarkRetrying(uid);
        }
      case StartRetry(uid) =>
        if uid in repo.failures && repo.failures[uid].status == RetryingRow { retrying := retrying + {uid}; }
      case RetrySucceeds(uid, review) =>
        if uid in retrying && uid in repo.failures {
          RetrySucceeded(uid, review);
          retrying := retrying - {uid};
        }
      case RetryFails(uid, error) =>
        if uid in retrying && uid in repo.failures {
          var row := repo.failures[uid];
          repo.failures := repo.failures[uid := Failure(FailedRow, row.attempts + 1, Some(error))];
          retrying := retrying - {uid};
        }
      case DropRetry(uid) => retrying := retrying - {uid};
      case RestoreFailure(uid, reason) =>
        if uid in repo.failures && repo.failures[uid].status == RetryingRow && uid !in retrying {
          var row := repo.failures[uid];
          repo.failures := repo.failures[uid :=
            row.(status := FailedRow, lastError := if reason.Some? then reason else row.lastError)];
        }
      case Confirm(uid) => if uid in proposals { proposals := proposals[uid := false]; }
      case Expunge(uid) => mailbox := mailbox.(uids := mailbox.uids - {uid});
      case Deliver => mailbox := Mailbox(mailbox.uids + {mailbox.uidNext}, mailbox.uidNext + 1);
    }

    /** Others act between two transactions of the batch standing at `l`. */
    method Interleave(steps: seq<Step>, ghost l: Local)
      requires forall step <- steps :: !step.ByBatch()
      modifies this, repo
      ensures System(State(), l) == Exec(maxAttempts, old(System(State(), l)), steps)
      ensures repo.job.uidvalidity == old(repo.job.uidvalidity) && (old(mailbox).Valid() ==> mailbox.Valid())
    {
      ghost var start := System(State(), l);
      for i := 0 to |steps|
        invariant System(State(), l) == Exec(maxAttempts, start, steps[..i])
        invariant repo.job.uidvalidity == old(repo.job.uidvalidity) && (old(mailbox).Valid() ==> mailbox.Valid())
      {
        assert steps[i] in steps;
        PerformNext(steps[i], l);
        ExecExtend(maxAttempts, start, steps[..i], steps[i]);
        assert steps[..i + 1] == steps[..i] + [steps[i]];
      }
      assert steps[..|steps|] == steps;
    }

    method PerformNext(step: Step, ghost l: Local)
      requires !step.ByBatch()
      modifies this, repo
      ensures System(State(), l) == Apply(maxAttempts, old(System(State(), l)), step)
      ensures repo.job.uidvalidity == old(repo.job.uidvalidity) && (old(mailbox).Valid() ==> mailbox.Valid())
    {
      Perform(step);
    }

    // -------------------------------------------------------------- the batch

    method ListRecoverable() returns (rows: seq<nat>)
      ensures RecoverableList(State(), rows)
    {
      rows := [];
      var rest := set uid | uid in repo.failures && RecoverableRowOf(repo.failures, uid);
      while rest != {} && |rows| < RECOVERY_LIMIT
        invariant |rows| <= RECOVERY_LIMIT && Ascending(rows)
        invariant forall uid :: uid in repo.failures && RecoverableRowOf(repo.failures, uid) <==> uid in rest || uid in rows
        invariant forall i, uid :: 0 <= i < |rows| && uid in rest ==> rows[i] < uid
        decreases rest
      {
        var least := LeastOf(rest);
        rows := rows + [least];
        rest := rest - {least};
      }
      assert forall uid <- rows :: RecoverableRow(State(), uid);
    }

    static method LeastOf(s: set<nat>) returns (least: nat)
      requires s != {}
      ensures IsLeast(least, s)
    {
      least :| least in s;
      var rest := s - {least};
      while rest != {}
        invariant rest <= s && least in s && forall u :: u in s && u !in rest ==> least <= u
        decreases rest
      {
        var u :| u in rest;
        if u < least { least := u; }
        rest := rest - {u};
      }
    }

    /** Revisit old recoverable failures, stopping at a transient error. */
    method RecoverPersistedFailures(call: Call, after: nat, listed: seq<nat>, ghost run: nat -> System, t0: nat)
      returns (t: nat)
      requires call.Valid() && call.maxAttempts == maxAttempts && t0 > 0
      requires IsRun(call, run) && System(State(), Recovering(after, listed)) == run(t0)
      modifies this, repo
      ensures t >= t0 && System(State(), Recovering(after, [])) == run(t)
      ensures repo.job.uidvalidity == old(repo.job.uidvalidity) && (old(mailbox).Valid() ==> mailbox.Valid())
    {
      t := t0;
      var rows := listed;
      while rows != []
        invariant t >= t0 && System(State(), Recovering(after, rows)) == run(t)
        invariant repo.job.uidvalidity == old(repo.job.uidvalidity) && (old(mailbox).Valid() ==> mailbox.Valid())
        decreases |rows|
      {
        ghost var before := System(State(), Recovering(after, rows));
        Interleave(call.others(t), Recovering(after, rows));
        ghost var met := System(State(), Recovering(after, rows));
        var r := call.recovery(rows[0]);
        RecoverOne(rows[0], r);
        rows := if r.StopRecovery? then [] else rows[1..];
        OneTurn(call, run, t, before, met, System(State(), Recovering(after, rows)));
        t := t + 1;
      }
    }

    /** One listed failure. */
    method RecoverOne(uid: nat, r: Recovery)
      modifies this, repo
      ensures State() == if r.Recovered? && uid in old(mailbox).uids && uid in old(repo.failures)
                         then RetrySuccess(old(State()), uid, r.review) else old(State())
      ensures repo.job.uidvalidity == old(repo.job.uidvalidity)
    {
      if r.Recovered? && uid in mailbox.uids && uid in repo.failures { RetrySucceeded(uid, r.review); }
    }

    method VisitMessage(uid: nat) returns (flow: Flow, known: bool)
      modifies repo
      ensures (State(), flow) == VisitOne(old(State()), uid) && known == (uid in old(proposals))
      ensures old(repo.job.state) != Running ==> State() == old(State()) && flow == Halt
    {
      known := uid in proposals;
      if repo.job.state != Running { return Halt, known; }
      if uid in proposals {
        var moved := repo.Advance(uid, OneSuccessful(proposals[uid]), None);
        return if moved then GoOn else Refused, known;
      }
      return GoOn, known;
    }

    /** First pass: skip what already has a proposal, collect the rest. */
    method VisitAll(call: Call, after: nat, messages: seq<nat>, scan: nat, done: bool, ghost run: nat -> System, t0: nat)
      returns (pending: seq<nat>, flow: Flow, t: nat)
      requires call.Valid() && call.maxAttempts == maxAttempts && t0 > 0
      requires IsRun(call, run) && System(State(), Visiting(after, [], messages, scan, done)) == run(t0)
      modifies this, repo
      ensures t >= t0
      ensures var l := Visiting(after, pending, [], scan, done);
        System(State(), Next(l, flow, l)) == run(t)
    {
      pending, flow, t := [], GoOn, t0;
      var i := 0;
      while i < |messages|
        invariant i <= |messages| && flow == GoOn && t >= t0
        invariant System(State(), Visiting(after, pending, messages[i..], scan, done)) == run(t)
      {
        ghost var l := Visiting(after, pending, messages[i..], scan, done);
        ghost var before := System(State(), l);
        Interleave(call.others(t), l);
        ghost var met := System(State(), l);
        var known;
        flow, known := VisitMessage(messages[i]);
        if !known { pending := pending + [messages[i]]; }
        i := i + 1;
        assert l.unseen[1..] == messages[i..];
        OneTurn(call, run, t, before, met, System(State(), Next(l, flow, Visiting(after, pending, messages[i..], scan, done))));
        t := t + 1;
        if flow != GoOn { return; }
      }
      assert messages[i..] == [];
    }

    /** Classify in concurrent chunks, commit in UID order, stop at the first yield or stop. */
    method CommitAll(
      call: Call, after: nat, pending: seq<nat>, scan: nat, done: bool, concurrencySetting: nat,
      ghost run: nat -> System, t0: nat)
      returns (flow: Flow, t: nat)
      requires call.Valid() && call.maxAttempts == maxAttempts && t0 > 0 && concurrencySetting > 0
      requires IsRun(call, run) && System(State(), Committing(after, pending, scan, done)) == run(t0)
      modifies this, repo
      ensures t >= t0
      ensures var l := Committing(after, [], scan, done);
        System(State(), Next(l, flow, l)) == run(t)
    {
      flow, t := GoOn, t0;
      var concurrency := if |pending| < 1 then 1 else |pending|;
      if concurrencySetting < concurrency { concurrency := concurrencySetting; }
      var offset := 0;
      while offset < |pending|
        invariant offset <= |pending| && flow == GoOn && t >= t0
        invariant System(State(), Committing(after, pending[offset..], scan, done)) == run(t)
      {
        var end := if offset + concurrency < |pending| then offset + concurrency else |pending|;
        var chunk := pending[offset..end];
        assert chunk + pending[end..] == pending[offset..];
        var outcomes := seq(|chunk|, j requires 0 <= j < |chunk| => call.classify(chunk[j]));
        flow, t := CommitChunk(call, after, chunk, outcomes, scan, done, run, t, pending[end..]);
        if flow != GoOn { return; }
        offset := end;
      }
      assert pending[offset..] == [];
    }

    method CommitChunk(
      call: Call, after: nat, chunk: seq<nat>, outcomes: seq<Outcome>, scan: nat, done: bool,
      ghost run: nat -> System, t0: nat, ghost later: seq<nat>)
      returns (flow: Flow, t: nat)
      requires call.Valid() && call.maxAttempts == maxAttempts && t0 > 0
      requires |outcomes| == |chunk| && forall j :: 0 <= j < |chunk| ==> outcomes[j] == call.classify(chunk[j])
      requires IsRun(call, run) && System(State(), Committing(after, chunk + later, scan, done)) == run(t0)
      modifies this, repo
      ensures t >= t0
      ensures var l := Committing(after, later, scan, done);
        System(State(), Next(l, flow, l)) == run(t)
    {
      flow, t := GoOn, t0;
      var j := 0;
      while j < |chunk|
        invariant j <= |chunk| && flow == GoOn && t >= t0
        invariant System(State(), Committing(after, chunk[j..] + later, scan, done)) == run(t)
      {
        ghost var l := Committing(after, chunk[j..] + later, scan, done);
        ghost var before := System(State(), l);
        Interleave(call.others(t), l);
        ghost var met := System(State(), l);
        assert l.pending[0] == chunk[j] && l.pending[1..] == chunk[j + 1..] + later;
        flow := CommitMessage(chunk[j], outcomes[j]);
        j := j + 1;
        OneTurn(call, run, t, before, met, System(State(), Next(l, flow, Committing(after, chunk[j..] + later, scan, done))));
        t := t + 1;
        if flow != GoOn { return; }
      }
      assert chunk[j..] + later == later;
    }

    /** One per-message transaction of the commit loop. */
    method CommitMessage(uid: nat, outcome: Outcome) returns (flow: Flow)
      modifies this, repo
      ensures (State(), flow) == CommitOne(maxAttempts, old(State()), uid, outcome)
      ensures old(repo.job.state) != Running || outcome.Transient? ==> State() == old(State()) && flow == Halt
    {
      if repo.job.state != Running { return Halt; }
      match outcome
      case Transient => return Halt;
      case Broken(error) =>
        var attempts := repo.NoteFailure(uid, error);
        if attempts < maxAttempts { return Halt; }
        var moved := repo.Advance(uid, ONE_FAILED, Some(error));
        return if moved then GoOn else Refused;
      case Classified(review) =>
        if uid !in proposals { proposals := proposals[uid := review]; }
        repo.Resolve(uid);
        var moved := repo.Advance(uid, OneSuccessful(review), None);
        return if moved then GoOn else Refused;
    }

    method FinishTransaction(reachedEnd: bool, scan: nat, done: bool) returns (flow: Flow)
      modifies repo
      ensures (State(), flow) == FinishOne(old(State()), reachedEnd, scan, done)
    {
      if repo.job.state == Running && reachedEnd {
        if scan > repo.job.Position() {
          var moved := repo.Advance(scan, NO_DELTAS, None);
          if !moved { return Refused; }
        }
        if done { var ok := repo.MoveTo(Completed); }
      }
      return GoOn;
    }

    /** From reading the running job to the listed failures. */
    method Begun(call: Call, ghost run: nat -> System) returns (after: nat, rows: seq<nat>)
      requires call.Valid() && call.maxAttempts == maxAttempts && repo.job.state == Running
      requires IsRun(call, run) && System(State(), Idle) == run(0)
      modifies this, repo
      ensures System(State(), Recovering(after, rows)) == run(2)
      ensures repo.job.uidvalidity == old(repo.job.uidvalidity) && (old(mailbox).Valid() ==> mailbox.Valid())
    {
      after := repo.job.Position();
      OneTurn(call, run, 0, System(State(), Idle), System(State(), Idle), System(State(), Started(after)));
      rows := ListRows(call, after, run, 1);
    }

    method ListRows(call: Call, after: nat, ghost run: nat -> System, t: nat) returns (rows: seq<nat>)
      requires call.Valid() && call.maxAttempts == maxAttempts && IsRun(call, run)
      requires t > 0 && System(State(), Started(after)) == run(t)
      modifies this, repo
      ensures System(State(), Recovering(after, rows)) == run(t + 1)
      ensures repo.job.uidvalidity == old(repo.job.uidvalidity) && (old(mailbox).Valid() ==> mailbox.Valid())
    {
      ghost var before := System(State(), Started(after));
      Interleave(call.others(t), Started(after));
      ghost var met := System(State(), Started(after));
      rows := ListRecoverable();
      ListIsFirstRows(State(), rows);
      OneTurn(call, run, t, before, met, System(State(), Recovering(after, rows)));
    }

    method FetchNext(call: Call, after: nat, uidWindow: nat, ghost run: nat -> System, t: nat)
      returns (messages: seq<nat>, scan: nat, done: bool)
      requires call.Valid() && call.maxAttempts == maxAttempts && call.batchSize > 0 && uidWindow > 0 && mailbox.Valid()
      requires IsRun(call, run) && t > 0 && System(State(), Recovering(after, [])) == run(t)
      modifies this, repo
      ensures repo.job.uidvalidity == old(repo.job.uidvalidity)
      ensures System(State(), Fetched(after, messages, scan, done)) == run(t + 1)
    {
      ghost var before := System(State(), Recovering(after, []));
      Interleave(call.others(t), Recovering(after, []));
      ghost var met := System(State(), Recovering(after, []));
      messages, scan, done := FetchHistoricalBatch(mailbox, after, call.batchSize, uidWindow);
      BatchIs(mailbox, after, call.batchSize, messages, scan);
      OneTurn(call, run, t, before, met, System(State(), Fetched(after, messages, scan, done)));
    }

    /** From reading the running job to the fetched messages. */
    method OpenBatch(call: Call, uidWindow: nat, ghost run: nat -> System)
      returns (after: nat, messages: seq<nat>, scan: nat, done: bool, t: nat)
      requires call.Valid() && call.maxAttempts == maxAttempts && call.batchSize > 0
      requires uidWindow > 0 && mailbox.Valid() && repo.job.state == Running
      requires IsRun(call, run) && System(State(), Idle) == run(0)
      modifies this, repo
      ensures t > 0 && repo.job.uidvalidity == old(repo.job.uidvalidity)
      ensures System(State(), Fetched(after, messages, scan, done)) == run(t)
    {
      var rows;
      after, rows := Begun(call, run);
      t := RecoverPersistedFailures(call, after, rows, run, 2);
      messages, scan, done := FetchNext(call, after, uidWindow, run, t);
      t := t + 1;
    }

    /** Record what the mailbox reports; a changed UIDVALIDITY ends the batch. */
    method DiscoverMailbox(
      call: Call, after: nat, messages: seq<nat>, scan: nat, done: bool, ghost run: nat -> System, t: nat) returns (known: bool)
      requires call.Valid() && call.maxAttempts == maxAttempts && IsRun(call, run)
      requires t > 0 && System(State(), Fetched(after, messages, scan, done)) == run(t)
      modifies this, repo
      ensures known == !old(UidvalidityChanged(repo.job, call.uidvalidity)) && (!known ==> repo.job.state == Failed)
      ensures System(State(), if known then Visiting(after, [], messages, scan, done) else Idle) == run(t + 1)
    {
      ghost var before := System(State(), Fetched(after, messages, scan, done));
      Interleave(call.others(t), Fetched(after, messages, scan, done));
      ghost var met := System(State(), Fetched(after, messages, scan, done));
      known := repo.Discover(call.uidvalidity, call.total);
      OneTurn(call, run, t, before, met,
        System(State(), if known then Visiting(after, [], messages, scan, done) else Idle));
    }

    method FinishBatch(call: Call, after: nat, reachedEnd: bool, scan: nat, done: bool, ghost run: nat -> System, t: nat)
      returns (raised: bool)
      requires call.Valid() && call.maxAttempts == maxAttempts && IsRun(call, run)
      requires t > 0 && System(State(), Finishing(after, reachedEnd, scan, done)) == run(t)
      modifies this, repo
      ensures System(State(), if raised then Raised else Idle) == run(t + 1)
    {
      ghost var l := Finishing(after, reachedEnd, scan, done);
      ghost var before := System(State(), l);
      Interleave(call.others(t), l);
      ghost var met := System(State(), l);
      var flow := FinishTransaction(reachedEnd, scan, done);
      raised := flow == Refused;
      OneTurn(call, run, t, before, met, System(State(), if raised then Raised else Idle));
    }

    /** The two passes over the fetched messages. */
    method ProcessMessages(
      call: Call, after: nat, messages: seq<nat>, scan: nat, done: bool, concurrencySetting: nat,
      ghost run: nat -> System, t0: nat)
      returns (flow: Flow, t: nat)
      requires call.Valid() && call.maxAttempts == maxAttempts && t0 > 0 && concurrencySetting > 0
      requires IsRun(call, run) && System(State(), Visiting(after, [], messages, scan, done)) == run(t0)
      modifies this, repo
      ensures t >= t0
      ensures var l := Finishing(after, true, scan, done);
        System(State(), Next(l, flow, l)) == run(t)
    {
      var pending;
      pending, flow, t := VisitAll(call, after, messages, scan, done, run, t0);
      if flow != GoOn { return; }
      PassOn(call, Visiting(after, pending, [], scan, done), Committing(after, pending, scan, done), run, t);
      flow, t := CommitAll(call, after, pending, scan, done, concurrencySetting, run, t + 1);
      if flow != GoOn { return; }
      PassOn(call, Committing(after, [], scan, done), Finishing(after, true, scan, done), run, t);
      t := t + 1;
    }

    /** The end of a pass: others act, and the batch goes on without a transaction. */
    method PassOn(call: Call, ghost l: Local, ghost next: Local, ghost run: nat -> System, t: nat)
      requires call.Valid() && call.maxAttempts == maxAttempts && IsRun(call, run) && t > 0
      requires System(State(), l) == run(t)
      requires (l.Visiting? && l.unseen == [] && next == Committing(l.after, l.pending, l.scan, l.done))
               || (l.Committing? && l.pending == [] && next == Finishing(l.after, true, l.scan, l.done))
      modifies this, repo
      ensures System(State(), next) == run(t + 1)
    {
      ghost var before := System(State(), l);
      Interleave(call.others(t), l);
      OneTurn(call, run, t, before, System(State(), l), System(State(), next));
    }

    method RunningBatch(call: Call, concurrencySetting: nat, uidWindow: nat, ghost run: nat -> System)
      returns (raised: bool, reset: bool, ghost turns: nat)
      requires call.Valid() && call.maxAttempts == maxAttempts && call.batchSize > 0
      requires concurrencySetting > 0 && uidWindow > 0 && mailbox.Valid() && repo.job.state == Running
      requires IsRun(call, run) && System(State(), Idle) == run(0)
      modifies this, repo
      ensures turns > 0
      ensures System(State(), if raised then Raised else Idle) == run(turns)
      ensures reset == old(UidvalidityChanged(repo.job, call.uidvalidity))
      ensures reset ==> !raised && repo.job.state == Failed
    {
      raised, reset := false, false;
      var after, messages, scan, done, t := OpenBatch(call, uidWindow, run);
      var known := DiscoverMailbox(call, after, messages, scan, done, run, t);
      turns := t + 1;
      if !known { reset := true; return; }
      var flow;
      flow, t := ProcessMessages(call, after, messages, scan, done, concurrencySetting, run, t + 1);
      turns := t;
      if flow == Refused { raised := true; return; }
      raised := FinishBatch(call, after, flow == GoOn, scan, done, run, t);
      turns := t + 1;
    }

    /** One batch. It ends with an error when a cursor is refused (`raised`) or the mailbox has a new UIDVALIDITY
        (`reset`), and in every case where the turns its inputs determine end. */
    method RunBatch(call: Call, concurrencySetting: nat, uidWindow: nat)
      returns (raised: bool, reset: bool, ghost turns: nat)
      requires call.Valid() && call.maxAttempts == maxAttempts && call.batchSize > 0
      requires concurrencySetting > 0 && uidWindow > 0 && mailbox.Valid()
      modifies this, repo
      ensures turns > 0
      ensures System(State(), if raised then Raised else Idle) == Turns(call, 0, old(System(State(), Idle)), turns)
      ensures reset <==> old(repo.job.state == Running && UidvalidityChanged(repo.job, call.uidvalidity))
      ensures reset ==> !raised && repo.job.state == Failed
      ensures maxAttempts > 0 && old(Inv(maxAttempts, System(State(), Idle))) ==>
                !raised && Inv(maxAttempts, System(State(), Idle))
    {
      ghost var start := System(State(), Idle);
      RunOfRuns(call, start);
      ghost var run := RunOf(call, start);
      if repo.job.state != Running {
        raised, reset, turns := false, false, 1;
        OneTurn(call, run, 0, start, start, start);
      } else {
        raised, reset, turns := RunningBatch(call, concurrencySetting, uidWindow, run);
      }
      if maxAttempts > 0 && Inv(maxAttempts, start) {
        ScriptRuns(call, 0, start, turns);
        ExecKeeps(maxAttempts, start, Script(call, 0, start, turns));
      }
    }
  }

  predicate RecoverableRowOf(failures: map<nat, Failure>, uid: nat)
    requires uid in failures
  {
    failures[uid].Unresolved() && failures[uid].lastError == Some(Error(true))
  }
}
