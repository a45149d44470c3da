/** What people's decisions do to proposals, field by field and row by row: which rows a decision touches, what an edit
    reaches, and what a person may wave through. */
module BulkDecisions {
  import opened Common
  import opened BulkRows
  import opened BulkApply
  import opened BulkApplySafety
  import opened BulkApplyPass
  import opened BulkApplyTermination

  // ---------------------------------------------------------------- which rows

  /** The decision is about this row. */
  predicate Names(step: Step, uid: nat)
    requires step.Decides()
  {
    match step
    case EditRows(selected, _) => uid in selected
    case ApproveOne(u) => u == uid
    case ApproveAllSafe => true
    case ApproveCluster(selected) => uid in selected
    case Exclude(u) => u == uid
    case CreateRow(u, _, _, _) => u == uid
  }

  /** A decision leaves other rows alone, and rows already decided too, but that an approved one can be excluded. */
  lemma OnlyNamedRowsChange(rows: Rows, step: Step, uid: nat)
    requires step.Decides() && uid in rows
    requires !Names(step, uid) || (rows[uid].status != Proposed && !(step.Exclude? && rows[uid].status == Approved))
    ensures uid in Decide(rows, step) && Decide(rows, step)[uid] == rows[uid]
  {
  }

  /** A new row is proposed as created; rows never go. */
  lemma NewRows(rows: Rows, step: Step, uid: nat)
    requires step.Decides()
    ensures uid in Decide(rows, step) <==> uid in rows || (step.CreateRow? && step.uid == uid)
    ensures uid !in rows && uid in Decide(rows, step) ==>
      Decide(rows, step)[uid] == Proposal(step.folder, step.uidvalidity, Proposed, step.snapshot, None, None, None)
  {
  }

  // ---------------------------------------------------------------- edits

  /** What the person sees of a row: the edited snapshot if there is one. */
  function Seen(p: Proposal): Snapshot { if p.edited.Some? then p.edited.value else p.original }

  predicate Edits(step: Step, uid: nat) { step.EditRows? && uid in step.selected }

  /** An edit of a proposed row sets just the fields it names; nothing else changes what is seen, but that approving a
      cluster clears the review flag and says that a person did. Suspicion is never changed. */
  lemma EditsSetFields(rows: Rows, step: Step, uid: nat)
    requires step.Decides() && uid in rows && rows[uid].status == Proposed
    ensures uid in Decide(rows, step)
    ensures var old_, new_, edits := Seen(rows[uid]), Seen(Decide(rows, step)[uid]), Edits(step, uid);
      && (forall l :: (l in new_.labels <==> l in old_.labels || (edits && l in step.edit.labels))
            && (l in new_.labels ==> new_.labels[l] == if edits && l in step.edit.labels then step.edit.labels[l] else old_.labels[l]))
      && new_.folder == (if edits && step.edit.folder.Some? then step.edit.folder.value else old_.folder)
      && new_.systemTags == (if edits && step.edit.systemTags.Some? then step.edit.systemTags.value else old_.systemTags)
      && new_.userTags == (if edits && step.edit.userTags.Some? then step.edit.userTags.value else old_.userTags)
      && new_.doMove == (if edits && step.edit.doMove.Some? then step.edit.doMove.value else old_.doMove)
      && new_.suspicious == old_.suspicious && new_.sourceFolder == old_.sourceFolder
      && (new_.reviewRequired != old_.reviewRequired || new_.humanConfirmed != old_.humanConfirmed ==>
            && step.ApproveCluster? && uid in step.selected && old_.reviewRequired && !old_.suspicious
            && !new_.reviewRequired && new_.humanConfirmed)
  {
  }

  /** The folder a person last gave the row while it was proposed, or the one it had. */
  ghost function FolderGiven(s: System, steps: seq<Step>, uid: nat, folder: string): string
    decreases |steps|
  {
    if steps == [] then folder
    else
      var given := if Edits(steps[0], uid) && steps[0].edit.folder.Some? && uid in s.world.rows && s.world.rows[uid].status == Proposed
                   then steps[0].edit.folder.value else folder;
      FolderGiven(Apply(s, steps[0]), steps[1..], uid, given)
  }

  /** Proposed with this folder to be seen, or approved for it. */
  predicate FolderIs(p: Proposal, folder: string) {
    (p.status == Proposed ==> Seen(p).folder == folder) && (p.approved.Some? ==> p.approved.value.folder == folder)
  }

  lemma StepKeepsFolder(s: System, step: Step, uid: nat, folder: string)
    requires ApprovalInv(s) && uid in s.world.rows && FolderIs(s.world.rows[uid], folder)
    ensures uid in Apply(s, step).world.rows
    ensures FolderIs(Apply(s, step).world.rows[uid],
      if Edits(step, uid) && step.edit.folder.Some? && s.world.rows[uid].status == Proposed then step.edit.folder.value else folder)
  {
    assert RowInv(s.world.rows[uid], uid, s.approvals);
    if step.Decides() {
      DecidedFolder(s.world.rows, step, uid, folder);
    } else if step.ByBatch() {
      if step.Mark? && s.local.Result? {
        assert Items(s.local)[0] == s.local.item;
        assert HoldInv(s.local);
      }
    }
  }

  lemma DecidedFolder(rows: Rows, step: Step, uid: nat, folder: string)
    requires step.Decides() && uid in rows && FolderIs(rows[uid], folder) && (rows[uid].status == Proposed ==> rows[uid].approved.None?)
    ensures uid in Decide(rows, step)
    ensures FolderIs(Decide(rows, step)[uid],
      if Edits(step, uid) && step.edit.folder.Some? && rows[uid].status == Proposed then step.edit.folder.value else folder)
  {
  }

  /** Over every run the folder a message is approved for is the one last given to it while it was proposed, or the
      one it was proposed with. */
  lemma {:induction false} ApprovedForFolderGiven(s: System, steps: seq<Step>, uid: nat, folder: string)
    requires ApprovalInv(s) && uid in s.world.rows && FolderIs(s.world.rows[uid], folder)
    ensures var end := Exec(s, steps);
      uid in end.world.rows && FolderIs(end.world.rows[uid], FolderGiven(s, steps, uid, folder))
    decreases |steps|
  {
    if steps != [] {
      StepKeeps(s, steps[0]);
      StepKeepsFolder(s, steps[0], uid, folder);
      var given := if Edits(steps[0], uid) && steps[0].edit.folder.Some? && s.world.rows[uid].status == Proposed
                   then steps[0].edit.folder.value else folder;
      ApprovedForFolderGiven(Apply(s, steps[0]), steps[1..], uid, given);
    }
  }

  // ---------------------------------------------------------------- approving and excluding

  /** A proposed row is approved exactly by a decision that names it and may: alone or with all safe ones if it is
      neither suspicious nor waiting for review, with its cluster if it is not suspicious. It stores what is seen. */
  lemma ApprovedExactly(rows: Rows, step: Step, uid: nat)
    requires step.Decides() && uid in rows && rows[uid].status == Proposed
    ensures var p, p', seen := rows[uid], Decide(rows, step)[uid], Seen(rows[uid]);
      && (p'.status == Approved <==>
            || (step == ApproveOne(uid) && !seen.suspicious && !seen.reviewRequired)
            || (step.ApproveAllSafe? && !seen.suspicious && !seen.reviewRequired)
            || (step.ApproveCluster? && uid in step.selected && !seen.suspicious))
      && (p'.status == Approved ==> p'.approved == Some(Seen(p')))
      && (p'.status == Excluded <==> step == Exclude(uid))
      && (p'.status == Proposed || p'.status == Approved || p'.status == Excluded)
  {
  }

  /** Cluster approval counts as blocked the selected proposed rows seen to be suspicious. */
  lemma BlockedAreSuspicious(rows: Rows, selected: set<nat>, uid: nat)
    ensures uid in SuspiciousIn(rows, selected)
       <==> uid in selected && uid in rows && rows[uid].status == Proposed && Seen(rows[uid]).suspicious
  {
  }

  /** Only a proposed or an approved row is excluded, and it loses its approval. */
  lemma ExcludedExactly(rows: Rows, step: Step, uid: nat)
    requires step.Decides() && uid in rows
    ensures var p, p' := rows[uid], Decide(rows, step)[uid];
      (p'.status == Excluded && p.status != Excluded)
        <==> (step == Exclude(uid) && (p.status == Proposed || p.status == Approved))
    ensures var p' := Decide(rows, step)[uid]; step == Exclude(uid) && p'.status == Excluded && rows[uid].status != Excluded ==>
      p' == rows[uid].(status := Excluded, approved := None)
  {
  }

  // ---------------------------------------------------------------- the self-heal

  predicate WasMissing(p: Proposal) {
    (p.status == Failed || p.status == Review) && p.lastError == Some(MissingOrMoved)
  }

  /** The self-heal turns just the rows that failed or wait because their message was missing into skipped ones. */
  lemma HealsJustMissing(s: System, uid: nat)
    requires uid in s.world.rows
    ensures var p, rows' := s.world.rows[uid], Apply(s, Heal).world.rows;
      && uid in rows' && rows'.Keys == s.world.rows.Keys && !WasMissing(rows'[uid])
      && rows'[uid] == if WasMissing(p) then p.(status := Skipped, lastError := None) else p
  {
  }

  // ---------------------------------------------------------------- the job

  /** Starting to apply makes a running job over the approved rows, unless there is one already or nothing to do. */
  lemma StartsOnce(s: System, size: nat)
    ensures var s', approved := Apply(s, StartApply(size)), set uid | uid in s.world.rows && s.world.rows[uid].status == Approved;
      if s.world.job.Some? || size == 0 then s' == s
      else s'.world.rows == s.world.rows && s'.local == s.local
           && (if approved == {} then s'.world.job.None?
               else s'.world.job == Some(ApplyJob(Running, size, |approved|, 0, 0, 0, 0, 0)))
  {
    assert WithStatus(s.world.rows, Approved) == set uid | uid in s.world.rows && s.world.rows[uid].status == Approved;
    var approved := WithStatus(s.world.rows, Approved);
    assert approved == {} <==> |approved| == 0;
  }

  /** The last transaction of a batch with nothing left to do, and nothing queued, closes a running job. */
  predicate Completes(s: System, step: Step) {
    && step.Close? && s.local == Batch([]) && s.world.job.Some? && s.world.job.value.state == Running
    && forall uid <- s.world.rows :: s.world.rows[uid].status != Approved && s.world.rows[uid].status != Applying
  }

  /** A job is completed in just that way, is paused, resumed, cancelled or failed by others while it is open, and its
      size and batch size never change; a completed job stays so. */
  lemma ApplyJobStates(s: System, step: Step)
    requires s.world.job.Some?
    ensures var s' := Apply(s, step);
      && s'.world.job.Some? && s'.world.job.value.batchSize == s.world.job.value.batchSize
      && s'.world.job.value.approved == s.world.job.value.approved
      && s'.world.job.value.state
           == (if Completes(s, step) then Completed
               else if step.SetJobState? && step.state != Completed && s.world.job.value.state != Completed then step.state
               else s.world.job.value.state)
  {
    if step.Close? && s.local == Batch([]) {
      if Completes(s, step) {
        assert Queue(s.world.rows) == {};
      } else if s.world.job.value.state == Running {
        var uid :| uid in s.world.rows && !(s.world.rows[uid].status != Approved && s.world.rows[uid].status != Applying);
        assert uid in Queue(s.world.rows);
      }
    }
  }

  lemma StepKeepsSum(s: System, step: Step)
    requires ChainInv(s) && Uninterrupted(step)
    ensures var s' := BatchStep(s, step);
      && ChainInv(s') && s'.world.job.value.approved == s.world.job.value.approved
      && s'.world.job.value.processed + |Queue(s'.world.rows)| == s.world.job.value.processed + |Queue(s.world.rows)|
  {
    if BatchStep(s, step) != s {
      StepWorks(s, step);
      if step.Mark? { MarkKeepsSum(s); } else { OthersKeepSum(s, step); }
    }
  }

  lemma MarkKeepsSum(s: System)
    requires ChainInv(s) && BatchStep(s, Mark) != s
    ensures var w, w' := s.world, BatchStep(s, Mark).world;
      && w'.job.Some? && w'.job.value.approved == w.job.value.approved
      && w'.job.value.processed == w.job.value.processed + 1 && |Queue(w'.rows)| == |Queue(w.rows)| - 1
  {
    assert Items(s.local)[0] == s.local.item;
    MarkUnread(s.world.rows, Items(s.local), s.local.result, s.local.error);
  }

  lemma OthersKeepSum(s: System, step: Step)
    requires ChainInv(s) && step.ByBatch() && !step.Mark?
    ensures var w, w' := s.world, BatchStep(s, step).world;
      && w'.rows == w.rows && w'.job.Some?
      && w'.job.value.approved == w.job.value.approved && w'.job.value.processed == w.job.value.processed
  {
  }

  lemma {:induction false} ChainKeepsSum(s: System, steps: seq<Step>)
    requires ChainInv(s) && forall step <- steps :: Uninterrupted(step)
    ensures var end := Exec(s, steps);
      && ChainInv(end) && end.world.job.value.approved == s.world.job.value.approved
      && end.world.job.value.processed + |Queue(end.world.rows)| == s.world.job.value.processed + |Queue(s.world.rows)|
    decreases |steps|
  {
    if steps != [] {
      StepKeepsSum(s, steps[0]);
      ChainKeepsSum(Apply(s, steps[0]), steps[1..]);
    }
  }

  /** A job started over approved rows and carried out by its batches alone completes with as many results as rows
      were approved. */
  lemma EveryApprovalProcessed(s: System, size: nat, steps: seq<Step>)
    requires s.world.job.None? && s.local.Idle? && size > 0 && WithStatus(s.world.rows, Applying) == {}
    requires WithStatus(s.world.rows, Approved) != {} && forall step <- steps :: Uninterrupted(step)
    ensures var end := Exec(Apply(s, StartApply(size)), steps);
      && end.world.job.Some?
      && (end.world.job.value.state == Completed ==> end.world.job.value.processed == |WithStatus(s.world.rows, Approved)|)
  {
    StartsOnce(s, size);
    var started := Apply(s, StartApply(size));
    assert WithStatus(s.world.rows, Approved) == set uid | uid in s.world.rows && s.world.rows[uid].status == Approved;
    forall uid <- s.world.rows ensures s.world.rows[uid].status != Applying { assert uid !in WithStatus(s.world.rows, Applying); }
    assert Queue(s.world.rows) == WithStatus(s.world.rows, Approved);
    ChainKeepsSum(started, steps);
  }
}
