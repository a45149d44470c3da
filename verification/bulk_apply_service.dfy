/** `run_batch` of the bulk apply service as the source writes it: a loop over the proposals it read, provider
    calls that may raise, and one transaction per result, with people, other handlers and the mailbox's other
    users acting in between. Each method ends where the turns of the machine that its inputs determine lead. */
module BulkApplyServices {
  import opened Common
  import opened BulkRows
  import opened BulkApply
  import opened BulkApplyCalls
  import HistoricalFetch
  import BulkApplySafety
  import BulkApplyCounters
  import BulkApplyTermination

  /** Asking for one message from the position before `uid` answers whether `uid` is there. */
  lemma ProbeFindsUid(mailbox: HistoricalFetch.Mailbox, uid: nat, messages: seq<nat>, scan: nat)
    requires mailbox.Valid()
    requires HistoricalFetch.IsBatch(mailbox, if uid == 0 then 0 else uid - 1, 1, messages, scan)
    ensures messages != [] && messages[0] == uid <==> uid in mailbox.uids
  {
    if messages != [] { assert messages[0] in messages; }
    if uid in mailbox.uids { assert uid <= scan ==> uid in messages; }
  }

  class BulkApplyService {
    const repo: BulkRepository
    var mail: Mail
    ghost var approvals: map<nat, Snapshot>
    ghost var sent: seq<Effect>

    ghost function At(l: Local): System
      reads this, repo
    {
      System(World(repo.rows, repo.job, mail), l, approvals, sent)
    }

    constructor (mail: Mail)
      ensures At(Idle) == Start(mail) && fresh(repo)
    {
      repo := new BulkRepository();
      this.mail, approvals, sent := mail, map[], [];
    }

    // -------------------------------------------------------------- everyone else

    method Decide(step: Step)
      requires step.Decides()
      modifies repo
      ensures repo.rows == BulkApply.Decide(old(repo.rows), step) && repo.job == old(repo.job)
      ensures old(repo.rows).Keys <= repo.rows.Keys
    {
      match step
      case CreateRow(uid, folder, uidvalidity, snapshot) => repo.CreateProposal(uid, folder, uidvalidity, snapshot);
      case EditRows(selected, edit) =>
        var present := set uid | uid in selected && uid in repo.rows;
        assert EditCluster(repo.rows, present, edit) == EditCluster(repo.rows, selected, edit);
        var edited, skipped := repo.EditSelected(present, edit);
      case ApproveOne(uid) => if uid in repo.rows { var ok := repo.ApproveProposal(uid); }
      case ApproveAllSafe => var approved := repo.ApproveAllSafe();
      case ApproveCluster(selected) => var approved, blocked := repo.ApproveCluster(selected);
      case Exclude(uid) => if uid in repo.rows { var ok := repo.ExcludeProposal(uid); }
    }

    method Perform(step: Step, ghost l: Local)
      requires !step.ByBatch()
      modifies this, repo
      ensures At(l) == Apply(old(At(l)), step)
      ensures old(repo.rows).Keys <= repo.rows.Keys && (old(repo.job).Some? ==> repo.job.Some?)
      ensures old(mail).Valid() && (step.MailboxChanges? ==> step.mail.Valid()) ==> mail.Valid()
    {
      if step.Decides() {
        ghost var before := repo.rows;
        Decide(step);
        approvals := approvals + NewApprovals(before, repo.rows);
        return;
      }
      match step
      case StartApply(batchSize) => if batchSize > 0 { var ok := repo.CreateApplyJob(batchSize); }
      case SetJobState(state) =>
        if repo.job.Some? && state != Completed && repo.job.value.state != Completed {
          repo.job := Some(repo.job.value.(state := state));
        }
      case Heal => repo.HealStale();
      case MailboxChanges(changed) => mail := changed;
    }

    /** Others act before the next step of the batch standing at `l`. */
    method Interleave(steps: seq<Step>, ghost l: Local)
      requires forall step <- steps :: !step.ByBatch() && (step.MailboxChanges? ==> step.mail.Valid())
      requires mail.Valid()
      modifies this, repo
      ensures mail.Valid() && old(repo.rows).Keys <= repo.rows.Keys && (old(repo.job).Some? ==> repo.job.Some?)
      ensures At(l) == Exec(old(At(l)), steps)
    {
      ghost var start := At(l);
      for i := 0 to |steps|
        invariant At(l) == Exec(start, steps[..i]) && mail.Valid()
        invariant old(repo.rows).Keys <= repo.rows.Keys && (old(repo.job).Some? ==> repo.job.Some?)
      {
        assert steps[i] in steps;
        Perform(steps[i], l);
        ExecExtend(start, steps[..i], steps[i]);
        assert steps[..i + 1] == steps[..i] + [steps[i]];
      }
      assert steps[..|steps|] == steps;
    }

    // -------------------------------------------------------------- the provider

    /** One IMAP command, preceded by whatever others do; false when it raises. */
    method Send(
      call: Call, item: Item, snapshot: Snapshot, c: Command, ghost seen: nat, ghost left: seq<Command>,
      ghost todo: seq<Item>, ghost known: Option<nat>, ghost run: nat -> Stage, t: nat)
      returns (ok: bool)
      requires call.Valid() && mail.Valid() && left != [] && left[0] == c && IsRun(call, run) && t > 0
      requires Stage(At(Acting(item, snapshot, seen, left, todo)), known) == run(t)
      modifies this, repo
      ensures mail.Valid() && old(repo.rows).Keys <= repo.rows.Keys && (old(repo.job).Some? ==> repo.job.Some?)
      ensures ok == !call.fails(t)
      ensures Stage(At(After(ok, item, snapshot, seen, left[1..], todo)), known) == run(t + 1)
    {
      ghost var l := Acting(item, snapshot, seen, left, todo);
      ghost var before := Stage(At(l), known);
      Interleave(call.others(t), l);
      ghost var met := Stage(At(l), known);
      ok := !call.fails(t);
      if ok {
        sent := sent + [Effect(item.uid, snapshot, seen, mail.uidvalidity, c)];
        mail := BulkApply.Perform(mail, item.uid, c);
      }
      OneTurn(call, run, t, before, met, Stage(At(After(ok, item, snapshot, seen, left[1..], todo)), known));
    }

    /** `move_email`: create the folder, copy, mark deleted, expunge. */
    method MoveEmail(
      call: Call, item: Item, snapshot: Snapshot, ghost seen: nat, ghost todo: seq<Item>, ghost known: Option<nat>,
      ghost run: nat -> Stage, t1: nat)
      returns (ok: bool, t: nat)
      requires call.Valid() && mail.Valid() && IsRun(call, run) && t1 > 0
      requires Stage(At(Acting(item, snapshot, seen, Move(snapshot), todo)), known) == run(t1)
      modifies this, repo
      ensures mail.Valid() && old(repo.rows).Keys <= repo.rows.Keys && (old(repo.job).Some? ==> repo.job.Some?)
      ensures t > t1 && Stage(At(After(ok, item, snapshot, seen, [], todo)), known) == run(t)
      ensures ok <==> forall k :: t1 <= k < t1 + 4 ==> !call.fails(k)
    {
      ghost var left := Move(snapshot);
      t := t1 + 1;
      ok := Send(call, item, snapshot, EnsureFolder(snapshot.folder), seen, left, todo, known, run, t1);
      if !ok { return; }
      left, t := left[1..], t1 + 2;
      ok := Send(call, item, snapshot, Copy(snapshot.folder), seen, left, todo, known, run, t1 + 1);
      if !ok { return; }
      left, t := left[1..], t1 + 3;
      ok := Send(call, item, snapshot, Command.AddFlags({DELETED_FLAG}), seen, left, todo, known, run, t1 + 2);
      if !ok { return; }
      left, t := left[1..], t1 + 4;
      ok := Send(call, item, snapshot, Expunge, seen, left, todo, known, run, t1 + 3);
      assert left[1..] == [];
    }

    /** `apply_tags` and `mark_as_processed`: at most one command. */
    method AddFlags(
      call: Call, item: Item, snapshot: Snapshot, flags: set<string>, needed: bool, ghost seen: nat, ghost rest: seq<Command>,
      ghost todo: seq<Item>, ghost known: Option<nat>, ghost run: nat -> Stage, t1: nat)
      returns (ok: bool, t: nat)
      requires call.Valid() && mail.Valid() && IsRun(call, run) && t1 > 0
      requires Stage(At(Acting(item, snapshot, seen, If(needed, Command.AddFlags(flags)) + rest, todo)), known)
            == run(t1)
      modifies this, repo
      ensures mail.Valid() && old(repo.rows).Keys <= repo.rows.Keys && (old(repo.job).Some? ==> repo.job.Some?)
      ensures t == t1 + |If(needed, Command.AddFlags(flags))|
      ensures Stage(At(After(ok, item, snapshot, seen, rest, todo)), known) == run(t)
      ensures ok <==> forall k :: t1 <= k < t ==> !call.fails(k)
    {
      ok, t := true, t1;
      assert [] + rest == rest;
      if needed {
        ghost var left := [Command.AddFlags(flags)] + rest;
        assert left[1..] == rest;
        ok := Send(call, item, snapshot, Command.AddFlags(flags), seen, left, todo, known, run, t1);
        t := t1 + 1;
      }
    }

    /** Tags, the processed mark, the move. */
    method Act(
      call: Call, item: Item, snapshot: Snapshot, ghost seen: nat, ghost todo: seq<Item>, ghost known: Option<nat>,
      ghost run: nat -> Stage, t1: nat)
      returns (ok: bool, t: nat)
      requires call.Valid() && mail.Valid() && IsRun(call, run) && t1 > 0
      requires Stage(At(Acting(item, snapshot, seen, Plan(item.proposal, snapshot), todo)), known)
            == run(t1)
      modifies this, repo
      ensures mail.Valid() && old(repo.rows).Keys <= repo.rows.Keys && (old(repo.job).Some? ==> repo.job.Some?)
      ensures t >= t1 && Stage(At(After(ok, item, snapshot, seen, [], todo)), known) == run(t)
      ensures ok <==> forall k :: t1 <= k < t1 + |Plan(item.proposal, snapshot)| ==> !call.fails(k)
    {
      PlanParts(item.proposal, snapshot);
      var flags := TagFlags(snapshot.systemTags + snapshot.userTags);
      var hasMove := snapshot.doMove && snapshot.folder != "" && snapshot.folder != item.proposal.sourceFolder;
      var hasAction := snapshot.systemTags + snapshot.userTags != [] || hasMove;
      ghost var move := if hasMove then Move(snapshot) else [];
      ghost var mark := If(hasAction, Command.AddFlags({PROCESSED_FLAG}));
      ok, t := AddFlags(call, item, snapshot, flags, flags != {}, seen, mark + move, todo, known, run, t1);
      if !ok { return; }
      ok, t := AddFlags(call, item, snapshot, {PROCESSED_FLAG}, hasAction, seen, move, todo, known, run, t);
      if !ok { return; }
      if hasMove {
        ok, t := MoveEmail(call, item, snapshot, seen, todo, known, run, t);
      }
    }

    // -------------------------------------------------------------- one proposal

    method RecordResult(
      call: Call, item: Item, result: Status, error: Option<Reason>, ghost todo: seq<Item>, ghost known: Option<nat>,
      ghost run: nat -> Stage, t: nat)
      requires call.Valid() && mail.Valid() && item.uid in repo.rows && repo.job.Some? && IsResult(result) && IsRun(call, run) && t > 0
      requires Stage(At(Result(item, result, error, todo)), known) == run(t)
      modifies this, repo
      ensures mail.Valid() && old(repo.rows).Keys <= repo.rows.Keys && (old(repo.job).Some? ==> repo.job.Some?)
      ensures Stage(At(Batch(todo)), known) == run(t + 1)
    {
      ghost var l := Result(item, result, error, todo);
      ghost var before := Stage(At(l), known);
      Interleave(call.others(t), l);
      ghost var met := Stage(At(l), known);
      repo.MarkResult(item.uid, result, error);
      OneTurn(call, run, t, before, met, Stage(At(Batch(todo)), known));
    }

    /** Is there a message at the proposal's exact position? */
    method Probe(uid: nat) returns (found: bool)
      requires mail.Valid()
      ensures found <==> uid in mail.source
    {
      var position := HistoricalFetch.Mailbox(mail.source.Keys, mail.uidNext);
      var after := if uid == 0 then 0 else uid - 1;
      var messages, scan, done := HistoricalFetch.FetchHistoricalBatch(position, after, 1, 1);
      ProbeFindsUid(position, uid, messages, scan);
      found := messages != [] && messages[0] == uid;
    }

    /** The fetch: either the message is found, or the result is settled. `known` is the UIDVALIDITY this
        connection has seen; a change makes the fetch raise. */
    method FetchMessage(
      call: Call, item: Item, snapshot: Snapshot, known: Option<nat>, ghost todo: seq<Item>,
      ghost run: nat -> Stage, t: nat)
      returns (found: bool, result: Status, error: Option<Reason>, seen: Option<nat>)
      requires call.Valid() && mail.Valid() && IsRun(call, run) && t > 0
      requires Stage(At(Fetching(item, snapshot, todo)), known) == run(t)
      modifies this, repo
      ensures mail.Valid() && old(repo.rows).Keys <= repo.rows.Keys && (old(repo.job).Some? ==> repo.job.Some?)
      ensures Stage(At(Fetched(found, item, snapshot, mail.uidvalidity, result, error, todo)), seen)
           == run(t + 1)
      ensures IsResult(result)
      ensures call.fails(t) || (known.Some? && known.value != mail.uidvalidity) ==>
        !found && result == Failed && error == Some(ProviderError) && seen == known
      ensures !call.fails(t) && (known.Some? ==> known.value == mail.uidvalidity) ==>
        && seen == Some(mail.uidvalidity)
        && (found <==> mail.uidvalidity == item.proposal.uidvalidity && item.uid in mail.source)
        && (mail.uidvalidity != item.proposal.uidvalidity ==> result == Review && error == Some(UidvalidityChanged))
        && (mail.uidvalidity == item.proposal.uidvalidity && !found ==> result == Skipped && error == None)
    {
      ghost var l := Fetching(item, snapshot, todo);
      ghost var before := Stage(At(l), known);
      Interleave(call.others(t), l);
      ghost var met := Stage(At(l), known);
      if call.fails(t) || (known.Some? && known.value != mail.uidvalidity) {
        found, result, error, seen := false, Failed, Some(ProviderError), known;
      } else {
        seen, result, error := Some(mail.uidvalidity), Skipped, None;
        found := Probe(item.uid);
        if mail.uidvalidity != item.proposal.uidvalidity {
          found, result, error := false, Review, Some(UidvalidityChanged);
        }
      }
      OneTurn(call, run, t, before, met,
        Stage(At(Fetched(found, item, snapshot, mail.uidvalidity, result, error, todo)), seen));
    }

    /** All commands sent: the result is settled. */
    method Settle(
      call: Call, item: Item, snapshot: Snapshot, ghost was: nat, ghost todo: seq<Item>, ghost known: Option<nat>,
      ghost run: nat -> Stage, t: nat)
      returns (result: Status)
      requires call.Valid() && mail.Valid() && IsRun(call, run) && t > 0
      requires Stage(At(Acting(item, snapshot, was, [], todo)), known) == run(t)
      modifies this, repo
      ensures mail.Valid() && old(repo.rows).Keys <= repo.rows.Keys && (old(repo.job).Some? ==> repo.job.Some?)
      ensures IsResult(result) && Stage(At(Result(item, result, None, todo)), known) == run(t + 1)
    {
      ghost var l := Acting(item, snapshot, was, [], todo);
      ghost var before := Stage(At(l), known);
      Interleave(call.others(t), l);
      ghost var met := Stage(At(l), known);
      result := if HasAction(item.proposal, snapshot) then Applied else Skipped;
      OneTurn(call, run, t, before, met, Stage(At(Result(item, result, None, todo)), known));
    }

    method FetchAndAct(
      call: Call, item: Item, snapshot: Snapshot, known: Option<nat>, ghost todo: seq<Item>,
      ghost run: nat -> Stage, t1: nat)
      returns (result: Status, error: Option<Reason>, seen: Option<nat>, t: nat)
      requires call.Valid() && mail.Valid() && IsRun(call, run) && t1 > 0
      requires Stage(At(Fetching(item, snapshot, todo)), known) == run(t1)
      modifies this, repo
      ensures mail.Valid() && old(repo.rows).Keys <= repo.rows.Keys && (old(repo.job).Some? ==> repo.job.Some?)
      ensures IsResult(result) && t > t1
      ensures Stage(At(Result(item, result, error, todo)), seen) == run(t)
    {
      var found, ok;
      found, result, error, seen := FetchMessage(call, item, snapshot, known, todo, run, t1);
      t := t1 + 1;
      if !found { return; }
      ghost var was := mail.uidvalidity;
      ok, t := Act(call, item, snapshot, was, todo, seen, run, t);
      if !ok { return Failed, Some(ProviderError), seen, t; }
      result := Settle(call, item, snapshot, was, todo, seen, run, t);
      error, t := None, t + 1;
    }

    method TakeNext(
      call: Call, item: Item, ghost known: Option<nat>, ghost todo: seq<Item>, ghost run: nat -> Stage, t: nat)
      requires call.Valid() && mail.Valid() && IsRun(call, run) && t > 0
      requires Stage(At(Batch([item] + todo)), known) == run(t)
      modifies this, repo
      ensures mail.Valid() && old(repo.rows).Keys <= repo.rows.Keys && (old(repo.job).Some? ==> repo.job.Some?)
      ensures Stage(TakeItem(At(Batch([item] + todo)), item, todo), known) == run(t + 1)
    {
      ghost var l := Batch([item] + todo);
      ghost var before := Stage(At(l), known);
      Interleave(call.others(t), l);
      ghost var met := Stage(At(l), known);
      assert ([item] + todo)[1..] == todo;
      OneTurn(call, run, t, before, met, Stage(TakeItem(met.s, item, todo), known));
    }

    /** One proposal: the checks on its snapshot, then the mailbox, then the result. */
    method ApplyOne(
      call: Call, item: Item, known: Option<nat>, ghost todo: seq<Item>, ghost run: nat -> Stage, t1: nat)
      returns (seen: Option<nat>, t: nat)
      requires call.Valid() && mail.Valid() && item.uid in repo.rows && repo.job.Some? && IsRun(call, run) && t1 > 0
      requires Stage(At(Batch([item] + todo)), known) == run(t1)
      modifies this, repo
      ensures mail.Valid() && old(repo.rows).Keys <= repo.rows.Keys && (old(repo.job).Some? ==> repo.job.Some?)
      ensures t > t1 && Stage(At(Batch(todo)), seen) == run(t)
    {
      seen, t := known, t1 + 1;
      TakeNext(call, item, known, todo, run, t1);
      if item.proposal.approved.None? {
        RecordResult(call, item, Review, Some(SnapshotMissing), todo, known, run, t);
      } else if item.proposal.approved.value.suspicious || item.proposal.approved.value.reviewRequired {
        RecordResult(call, item, Review, Some(NeedsReview), todo, known, run, t);
      } else {
        var result, error;
        result, error, seen, t := FetchAndAct(call, item, item.proposal.approved.value, known, todo, run, t);
        RecordResult(call, item, result, error, todo, seen, run, t);
      }
      t := t + 1;
    }

    // -------------------------------------------------------------- the batch

    method LeastQueued(queue: set<nat>) returns (least: nat)
      requires queue != {}
      ensures IsLeast(least, queue)
    {
      least :| least in queue;
      var rest := queue - {least};
      while rest != {}
        invariant least in queue && rest <= queue
        invariant forall uid <- queue :: uid in rest || least <= uid
        decreases rest
      {
        var uid :| uid in rest;
        rest := rest - {uid};
        if uid < least { least := uid; }
      }
    }

    /** The first `batchSize` queued proposals by UID. */
    method NextApplyBatch(batchSize: nat) returns (items: seq<Item>)
      ensures items == BulkApplyTermination.NextItems(repo.rows, Queue(repo.rows), batchSize)
      ensures IsNextBatch(repo.rows, batchSize, items)
    {
      items := [];
      var rest := Queue(repo.rows);
      while rest != {} && |items| < batchSize
        invariant |items| <= batchSize && rest <= Queue(repo.rows)
        invariant BulkApplyTermination.NextItems(repo.rows, Queue(repo.rows), batchSize)
               == items + BulkApplyTermination.NextItems(repo.rows, rest, batchSize - |items|)
        decreases rest
      {
        var uid := LeastQueued(rest);
        NextItemsStep(repo.rows, rest, batchSize - |items|, uid);
        ghost var later := BulkApplyTermination.NextItems(repo.rows, rest - {uid}, batchSize - |items| - 1);
        assert items + ([Item(uid, repo.rows[uid])] + later) == (items + [Item(uid, repo.rows[uid])]) + later;
        items := items + [Item(uid, repo.rows[uid])];
        rest := rest - {uid};
      }
      BulkApplyTermination.NextItemsAreFirst(repo.rows, Queue(repo.rows), batchSize);
    }

    method ApplyAll(call: Call, proposals: seq<Item>, ghost run: nat -> Stage, t1: nat) returns (ghost known: Option<nat>, t: nat)
      requires call.Valid() && mail.Valid() && repo.job.Some? && IsRun(call, run) && t1 > 0
      requires Stage(At(Batch(proposals)), None) == run(t1)
      requires forall k :: 0 <= k < |proposals| ==> proposals[k].uid in repo.rows
      modifies this, repo
      ensures mail.Valid() && repo.job.Some? && t >= t1
      ensures Stage(At(Batch([])), known) == run(t)
    {
      assert proposals[0..] == proposals;
      var i, seen := 0, None;
      t := t1;
      while i < |proposals|
        invariant i <= |proposals| && mail.Valid() && repo.job.Some? && t >= t1
        invariant forall k :: 0 <= k < |proposals| ==> proposals[k].uid in repo.rows
        invariant Stage(At(Batch(proposals[i..])), seen) == run(t)
      {
        assert proposals[i..] == [proposals[i]] + proposals[i + 1..];
        seen, t := ApplyOne(call, proposals[i], seen, proposals[i + 1..], run, t);
        i := i + 1;
      }
      assert proposals[i..] == [];
      known := seen;
    }

    method CloseBatch(call: Call, ghost known: Option<nat>, ghost run: nat -> Stage, t: nat)
      requires call.Valid() && mail.Valid() && repo.job.Some? && IsRun(call, run) && t > 0
      requires Stage(At(Batch([])), known) == run(t)
      modifies this, repo
      ensures mail.Valid() && repo.job.Some? && Stage(At(Idle), known) == run(t + 1)
      ensures repo.job.value.state == Running ==> Queue(repo.rows) != {}
    {
      ghost var before := Stage(At(Batch([])), known);
      Interleave(call.others(t), Batch([]));
      ghost var met := Stage(At(Batch([])), known);
      repo.FinalizeIfDone();
      OneTurn(call, run, t, before, met, Stage(At(Idle), known));
    }

    method RunningBatch(call: Call, ghost run: nat -> Stage)
      returns (requeue: bool, ghost known: Option<nat>, ghost turns: nat)
      requires call.Valid() && mail.Valid() && repo.job.Some? && repo.job.value.state == Running
      requires IsRun(call, run) && Stage(At(Idle), None) == run(0)
      modifies this, repo
      ensures mail.Valid() && repo.job.Some? && turns > 0 && Stage(At(Idle), known) == run(turns)
      ensures old(repo.job.value.batchSize) > 0 ==>
        (requeue <==> repo.job.value.state == Running && Queue(repo.rows) != {} && old(Queue(repo.rows)) != {})
    {
      ghost var start := Stage(At(Idle), None);
      var proposals := NextApplyBatch(repo.job.value.batchSize);
      OneTurn(call, run, 0, start, start, Stage(At(Batch(proposals)), None));
      if repo.job.value.batchSize > 0 { NonemptyBatch(repo.rows, repo.job.value.batchSize, proposals); }
      var t;
      known, t := ApplyAll(call, proposals, run, 1);
      CloseBatch(call, known, run, t);
      turns := t + 1;
      requeue := |proposals| > 0 && repo.job.value.state == Running;
    }

    /** One batch; it answers whether another is to be queued. A batch that read nothing never asks for another,
        even if proposals were approved before it closed. */
    method RunBatch(call: Call) returns (requeue: bool, ghost known: Option<nat>, ghost turns: nat)
      requires call.Valid() && mail.Valid() && repo.job.Some?
      modifies this, repo
      ensures mail.Valid() && repo.job.Some? && turns > 0
      ensures Stage(At(Idle), known) == Turns(call, 0, old(Stage(At(Idle), None)), turns)
      ensures old(repo.job.value.state != Running) ==> !requeue
      ensures old(repo.job.value.state == Running && repo.job.value.batchSize > 0) ==>
        (requeue <==> repo.job.value.state == Running && Queue(repo.rows) != {} && old(Queue(repo.rows)) != {})
      ensures old(BulkApplySafety.ApprovalInv(At(Idle))) ==> BulkApplySafety.ApprovalInv(At(Idle))
      ensures old(BulkApplyCounters.TallyInv(At(Idle))) ==> BulkApplyCounters.TallyInv(At(Idle))
    {
      ghost var start := Stage(At(Idle), None);
      RunOfRuns(call, start);
      ghost var run := RunOf(call, start);
      if repo.job.value.state != Running {
        requeue, known, turns := false, None, 1;
        OneTurn(call, run, 0, start, start, start);
      } else {
        requeue, known, turns := RunningBatch(call, run);
      }
      ScriptRuns(call, 0, start, turns);
      ghost var steps := Script(call, 0, start, turns);
      if BulkApplySafety.ApprovalInv(start.s) { BulkApplySafety.AppliedIsApproved(start.s, steps); }
      if BulkApplyCounters.TallyInv(start.s) { BulkApplyCounters.CountersStayRows(start.s, steps); }
    }
  }

  function Move(snapshot: Snapshot): seq<Command> {
    [EnsureFolder(snapshot.folder), Copy(snapshot.folder), AddFlags({DELETED_FLAG}), Expunge]
  }

  function If(needed: bool, c: Command): seq<Command> { if needed then [c] else [] }

  lemma PlanParts(p: Proposal, s: Snapshot)
    ensures Plan(p, s)
         == If(TagFlags(s.systemTags + s.userTags) != {}, AddFlags(TagFlags(s.systemTags + s.userTags)))
            + (If(HasAction(p, s), AddFlags({PROCESSED_FLAG})) + (if HasMove(p, s) then Move(s) else []))
  {
  }

  /** Where the batch stands after commands were sent, or after one raised. */
  function After(
    ok: bool, item: Item, snapshot: Snapshot, seen: nat, left: seq<Command>, todo: seq<Item>): Local
  {
    if ok then Acting(item, snapshot, seen, left, todo) else Result(item, Failed, Some(ProviderError), todo)
  }

  /** Where it stands after the fetch. */
  function Fetched(
    found: bool, item: Item, snapshot: Snapshot, uidvalidity: nat, result: Status, error: Option<Reason>, todo: seq<Item>): Local
  {
    if found then Acting(item, snapshot, uidvalidity, Plan(item.proposal, snapshot), todo) else Result(item, result, error, todo)
  }

  lemma NextItemsStep(rows: Rows, rest: set<nat>, size: nat, uid: nat)
    requires rest <= rows.Keys && size > 0 && IsLeast(uid, rest)
    ensures BulkApplyTermination.NextItems(rows, rest, size)
         == [Item(uid, rows[uid])] + BulkApplyTermination.NextItems(rows, rest - {uid}, size - 1)
  {
    assert Least(rest) == uid;
  }

  lemma NonemptyBatch(rows: Rows, size: nat, items: seq<Item>)
    requires IsNextBatch(rows, size, items) && size > 0
    ensures items == [] <==> Queue(rows) == {}
  {
    if items != [] { assert items[0].uid in Queue(rows); }
    if Queue(rows) != {} {
      var uid :| uid in Queue(rows);
      assert items == [] ==> uid !in Uids(items);
    }
  }
}
