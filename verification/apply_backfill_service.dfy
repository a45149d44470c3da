/** `run_batch` of the apply-mode service as the source writes it, with other processes acting between
    its transactions. Each method ends where the turns of the machine that its inputs determine lead. */
module ApplyBackfillServices {
  import opened Common
  import opened BackfillStore
  import opened HistoricalFetch
  import opened ApplyBackfill
  import opened ApplyBackfillCounters
  import opened ApplyBackfillCalls

  class BackfillService {
    const maxAttempts: nat
    const repo: BackfillRepository
    var handled: map<nat, bool>
    var mailbox: Mailbox
    var retrying: set<nat>

    ghost function State(): World
      reads this, repo
    {
      World(repo.job, repo.failures, handled, mailbox, retrying)
    }

    constructor (maxAttempts: nat, mailbox: Mailbox, handled: map<nat, bool>)
      ensures State() == Start(mailbox, handled).world && this.maxAttempts == maxAttempts && fresh(repo)
    {
      this.maxAttempts := maxAttempts;
      repo := new BackfillRepository(Job(Running, None, None, 0, 0, 0, 0, 0, None));
      this.handled, retrying, this.mailbox := handled, {}, mailbox;
    }

    /** One request handler or retry worker transaction. */
    method Perform(step: Step)
      requires !step.ByBatch()
      modifies this, repo
      ensures State() == WorldStep(maxAttempts, old(State()), step)
      ensures repo.job.uidvalidity == old(repo.job.uidvalidity)
    {
      match step
      case SetState(target) =>
        if target != Completed { var ok := repo.MoveTo(target); }
      case RequestRetry(uid) =>
        if uid in repo.failures && repo.failures[uid].attempts >= maxAttempts { var ok := repo.MarkRetrying(uid); }
      case StartRetry(uid) =>
        if uid in repo.failures && repo.failures[uid].status == RetryingRow { retrying := retrying + {uid}; }
      case RetrySucceeds(uid) =>
        if uid in retrying && uid in repo.failures {
          var ok := repo.RetrySucceeded(uid, uid in handled && handled[uid]);
          retrying := retrying - {uid};
        }
      case RetryFails(uid, error) =>
        if uid in retrying && uid in repo.failures {
          var row := repo.failures[uid];
          repo.failures := repo.failures[uid := Failure(FailedRow, row.attempts + 1, Some(error))];
          retrying := retrying - {uid};
        }
      case DropRetry(uid) => retrying := retrying - {uid};
      case RestoreFailure(uid, reason) =>
        if uid in repo.failures && repo.failures[uid].status == RetryingRow && uid !in retrying {
          var row := repo.failures[uid];
          repo.failures := repo.failures[uid :=
            row.(status := FailedRow, lastError := if reason.Some? then reason else row.lastError)];
        }
      case HandledElsewhere(uid, review) => if uid !in handled { handled := handled[uid := review]; }
      case Expunge(uid) => mailbox := mailbox.(uids := mailbox.uids - {uid});
      case Deliver => mailbox := Mailbox(mailbox.uids + {mailbox.uidNext}, mailbox.uidNext + 1);
    }

    /** Others act between two transactions of the batch standing at `l`. */
    method Interleave(steps: seq<Step>, ghost l: Local)
      requires forall step <- steps :: !step.ByBatch()
      modifies this, repo
      ensures System(State(), l) == Exec(maxAttempts, old(System(State(), l)), steps)
      ensures repo.job.uidvalidity == old(repo.job.uidvalidity) && (old(mailbox).Valid() ==> mailbox.Valid())
    {
      ghost var start := System(State(), l);
      for i := 0 to |steps|
        invariant System(State(), l) == Exec(maxAttempts, start, steps[..i])
        invariant repo.job.uidvalidity == old(repo.job.uidvalidity) && (old(mailbox).Valid() ==> mailbox.Valid())
      {
        assert steps[i] in steps;
        PerformNext(steps[i], l);
        ExecExtend(maxAttempts, start, steps[..i], steps[i]);
        assert steps[..i + 1] == steps[..i] + [steps[i]];
      }
      assert steps[..|steps|] == steps;
    }

    method PerformNext(step: Step, ghost l: Local)
      requires !step.ByBatch()
      modifies this, repo
      ensures System(State(), l) == Apply(maxAttempts, old(System(State(), l)), step)
      ensures repo.job.uidvalidity == old(repo.job.uidvalidity) && (old(mailbox).Valid() ==> mailbox.Valid())
    {
      Perform(step);
    }

    /** Second transaction of a handled message: resolve its row and advance the cursor. */
    method CountHandled(uid: nat) returns (flow: Flow)
      modifies repo
      ensures (State(), flow) == Succeed(old(State()), uid)
      ensures flow == GoOn ==> repo.job.successful == old(repo.job.successful) + 1
      ensures flow == GoOn ==>
        repo.job.reviewRequired == old(repo.job.reviewRequired) + (if uid in handled && handled[uid] then 1 else 0)
    {
      var review := uid in handled && handled[uid];
      repo.Resolve(uid);
      var moved := repo.Advance(uid, OneSuccessful(review), None);
      flow := if moved then GoOn else Refused;
    }

    method CountFailed(uid: nat, error: Error) returns (flow: Flow)
      modifies repo
      ensures (State(), flow) == Fail(maxAttempts, old(State()), uid, error)
    {
      var attempts := repo.NoteFailure(uid, error);
      if attempts < maxAttempts { return Halt; }
      var moved := repo.Advance(uid, ONE_FAILED, Some(error));
      flow := if moved then GoOn else Refused;
    }

    method FinishTransaction(yielded: bool, scan: nat, done: bool) returns (flow: Flow)
      modifies repo
      ensures (State(), flow) == FinishOne(old(State()), yielded, scan, done)
    {
      if repo.job.state == Running && !yielded {
        if scan > repo.job.Position() {
          var moved := repo.Advance(scan, NO_DELTAS, None);
          if !moved { return Refused; }
        }
        if done { var ok := repo.MoveTo(Completed); }
      }
      return GoOn;
    }

    /** One message the loop has not found handled: run the pipeline, then count the result. */
    method ProcessMessage(call: Call, rest: seq<nat>, scan: nat, done: bool, ghost run: nat -> System, t0: nat)
      returns (flow: Flow, t: nat)
      requires call.Valid() && call.maxAttempts == maxAttempts && t0 > 0 && rest != []
      requires IsRun(call, run) && System(State(), Working(rest, scan, done)) == run(t0)
      modifies this, repo
      ensures t >= t0 && System(State(), Stand(flow, rest, scan, done)) == run(t)
    {
      ghost var start := System(State(), Working(rest, scan, done));
      Interleave(call.others(t0), Working(rest, scan, done));
      ghost var met := System(State(), Working(rest, scan, done));
      t := t0 + 1;
      match call.process(rest[0])
      case NotHandled =>
        flow := Halt;
        OneTurn(call, run, t0, start, met, System(State(), Stand(flow, rest, scan, done)));
      case Broken(error) =>
        flow := CountFailed(rest[0], error);
        OneTurn(call, run, t0, start, met, System(State(), Stand(flow, rest, scan, done)));
      case Handled(review) =>
        handled := handled[rest[0] := review];
        ghost var recorded := System(State(), Recorded(rest, scan, done));
        OneTurn(call, run, t0, start, met, recorded);
        Interleave(call.others(t), Recorded(rest, scan, done));
        met := System(State(), Recorded(rest, scan, done));
        flow := CountHandled(rest[0]);
        OneTurn(call, run, t, recorded, met, System(State(), Stand(flow, rest, scan, done)));
        t := t + 1;
    }

    /** One turn of the message loop at a message: an observed pause, an earlier result, or the pipeline. */
    method LoopOnce(call: Call, rest: seq<nat>, scan: nat, done: bool, ghost run: nat -> System, t0: nat)
      returns (flow: Flow, paused: bool, t: nat)
      requires call.Valid() && call.maxAttempts == maxAttempts && t0 > 0 && rest != []
      requires IsRun(call, run) && System(State(), Looping(rest, scan, done)) == run(t0)
      modifies this, repo
      ensures t > t0
      ensures System(State(), if paused then Finishing(rest, false, scan, done) else Stand(flow, rest, scan, done)) == run(t)
    {
      ghost var start := System(State(), Looping(rest, scan, done));
      Interleave(call.others(t0), Looping(rest, scan, done));
      ghost var met := System(State(), Looping(rest, scan, done));
      flow, paused, t := GoOn, false, t0 + 1;
      if repo.job.state != Running {
        paused := true;
        OneTurn(call, run, t0, start, met, System(State(), Finishing(rest, false, scan, done)));
      } else if rest[0] in handled {
        flow := CountHandled(rest[0]);
        OneTurn(call, run, t0, start, met, System(State(), Stand(flow, rest, scan, done)));
      } else {
        OneTurn(call, run, t0, start, met, System(State(), Working(rest, scan, done)));
        flow, t := ProcessMessage(call, rest, scan, done, run, t);
      }
    }

    /** The message loop: it ends at the end of the list, at an observed pause, or yielded for retry. */
    method ProcessAll(call: Call, messages: seq<nat>, scan: nat, done: bool, ghost run: nat -> System, t0: nat)
      returns (raised: bool, yielded: bool, t: nat, ghost left: seq<nat>)
      requires call.Valid() && call.maxAttempts == maxAttempts && t0 > 0
      requires IsRun(call, run) && System(State(), Looping(messages, scan, done)) == run(t0)
      modifies this, repo
      ensures t >= t0 && System(State(), if raised then Raised else Finishing(left, yielded, scan, done)) == run(t)
    {
      raised, yielded, t, left := false, false, t0, [];
      var i := 0;
      while i < |messages|
        invariant i <= |messages| && t >= t0
        invariant System(State(), Looping(messages[i..], scan, done)) == run(t)
      {
        var flow, paused;
        flow, paused, t := LoopOnce(call, messages[i..], scan, done, run, t);
        assert messages[i..][1..] == messages[i + 1..];
        left := messages[i..];
        if paused { return; }
        if flow == Halt { yielded := true; return; }
        if flow == Refused { raised := true; return; }
        i := i + 1;
      }
      left := [];
      assert messages[i..] == [];
      ghost var before := System(State(), Looping([], scan, done));
      Interleave(call.others(t), Looping([], scan, done));
      OneTurn(call, run, t, before, System(State(), Looping([], scan, done)), System(State(), Finishing([], false, scan, done)));
      t := t + 1;
    }

    /** From reading the running job to the fetched messages. */
    method OpenBatch(call: Call, uidWindow: nat, ghost run: nat -> System)
      returns (messages: seq<nat>, scan: nat, done: bool, t: nat)
      requires call.Valid() && call.maxAttempts == maxAttempts && call.batchSize > 0
      requires uidWindow > 0 && mailbox.Valid() && repo.job.state == Running
      requires IsRun(call, run) && System(State(), Idle) == run(0)
      modifies this, repo
      ensures t > 0 && repo.job.uidvalidity == old(repo.job.uidvalidity)
      ensures System(State(), Fetched(messages, scan, done)) == run(t)
    {
      ghost var start := System(State(), Idle);
      var after := repo.job.Position();
      ghost var begun := System(State(), Started(after));
      OneTurn(call, run, 0, start, start, begun);
      Interleave(call.others(1), Started(after));
      ghost var met := System(State(), Started(after));
      messages, scan, done := FetchHistoricalBatch(mailbox, after, call.batchSize, uidWindow);
      BatchIs(mailbox, after, call.batchSize, messages, scan);
      OneTurn(call, run, 1, begun, met, System(State(), Fetched(messages, scan, done)));
      t := 2;
    }

    /** Record what the mailbox reports; a changed UIDVALIDITY ends the batch. */
    method DiscoverMailbox(
      call: Call, messages: seq<nat>, scan: nat, done: bool, ghost run: nat -> System, t: nat) returns (known: bool)
      requires call.Valid() && call.maxAttempts == maxAttempts && IsRun(call, run)
      requires t > 0 && System(State(), Fetched(messages, scan, done)) == run(t)
      modifies this, repo
      ensures known == !old(UidvalidityChanged(repo.job, call.uidvalidity)) && (!known ==> repo.job.state == Failed)
      ensures System(State(), if known then Looping(messages, scan, done) else Idle) == run(t + 1)
    {
      ghost var before := System(State(), Fetched(messages, scan, done));
      Interleave(call.others(t), Fetched(messages, scan, done));
      ghost var met := System(State(), Fetched(messages, scan, done));
      known := repo.Discover(call.uidvalidity, call.total);
      OneTurn(call, run, t, before, met, System(State(), if known then Looping(messages, scan, done) else Idle));
    }

    method FinishBatch(
      call: Call, ghost left: seq<nat>, yielded: bool, scan: nat, done: bool, ghost run: nat -> System, t: nat)
      returns (raised: bool)
      requires call.Valid() && call.maxAttempts == maxAttempts && IsRun(call, run)
      requires t > 0 && System(State(), Finishing(left, yielded, scan, done)) == run(t)
      modifies this, repo
      ensures System(State(), if raised then Raised else Idle) == run(t + 1)
    {
      ghost var l := Finishing(left, yielded, scan, done);
      ghost var before := System(State(), l);
      Interleave(call.others(t), l);
      ghost var met := System(State(), l);
      var flow := FinishTransaction(yielded, scan, done);
      raised := flow == Refused;
      OneTurn(call, run, t, before, met, System(State(), if raised then Raised else Idle));
    }

    method RunningBatch(call: Call, uidWindow: nat, ghost run: nat -> System)
      returns (raised: bool, reset: bool, ghost turns: nat)
      requires call.Valid() && call.maxAttempts == maxAttempts && call.batchSize > 0
      requires uidWindow > 0 && mailbox.Valid() && repo.job.state == Running
      requires IsRun(call, run) && System(State(), Idle) == run(0)
      modifies this, repo
      ensures turns > 0
      ensures System(State(), if raised then Raised else Idle) == run(turns)
      ensures reset == old(UidvalidityChanged(repo.job, call.uidvalidity))
      ensures reset ==> !raised && repo.job.state == Failed
    {
      raised, reset := false, false;
      var messages, scan, done, t := OpenBatch(call, uidWindow, run);
      var known := DiscoverMailbox(call, messages, scan, done, run, t);
      turns := t + 1;
      if !known { reset := true; return; }
      var yielded;
      ghost var left;
      raised, yielded, t, left := ProcessAll(call, messages, scan, done, run, t + 1);
      turns := t;
      if raised { return; }
      raised := FinishBatch(call, left, yielded, scan, done, run, t);
      turns := t + 1;
    }

    /** One batch. It ends with an error when a cursor is refused (`raised`) or the mailbox has a new UIDVALIDITY
        (`reset`), and in every case where the turns its inputs determine end. */
    method RunBatch(call: Call, uidWindow: nat) returns (raised: bool, reset: bool, ghost turns: nat)
      requires call.Valid() && call.maxAttempts == maxAttempts && call.batchSize > 0 && uidWindow > 0 && mailbox.Valid()
      modifies this, repo
      ensures turns > 0
      ensures System(State(), if raised then Raised else Idle) == Turns(call, 0, old(System(State(), Idle)), turns)
      ensures reset <==> old(repo.job.state == Running && UidvalidityChanged(repo.job, call.uidvalidity))
      ensures reset ==> !raised && repo.job.state == Failed
      ensures maxAttempts > 0 && old(Inv(maxAttempts, System(State(), Idle))) ==>
                !raised && CountersMatch(maxAttempts, State())
    {
      ghost var start := System(State(), Idle);
      RunOfRuns(call, start);
      ghost var run := RunOf(call, start);
      if repo.job.state != Running {
        raised, reset, turns := false, false, 1;
        OneTurn(call, run, 0, start, start, start);
      } else {
        raised, reset, turns := RunningBatch(call, uidWindow, run);
      }
      if maxAttempts > 0 && Inv(maxAttempts, start) {
        ScriptRuns(call, 0, start, turns);
        ExecKeeps(maxAttempts, start, Script(call, 0, start, turns));
      }
    }
  }

  /** Where the loop stands after a message. */
  function Stand(flow: Flow, rest: seq<nat>, scan: nat, done: bool): Local
    requires rest != []
  {
    match flow
    case GoOn => Looping(rest[1..], scan, done)
    case Halt => Finishing(rest, true, scan, done)
    case Refused => Raised
  }
}
