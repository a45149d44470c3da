/** Proposal rows of one source job, keyed by UID, the apply job's counters, and the repository and
    request-handler operations on them. */
module BulkRows {
  import opened Common

  datatype Label = Category | Subcategory | Importance | Urgency | ActionRequired

  datatype Snapshot = Snapshot(
    labels: map<Label, string>, folder: string, sourceFolder: string, systemTags: seq<string>, userTags: seq<string>,
    doMove: bool, suspicious: bool, reviewRequired: bool, humanConfirmed: bool)
  {
    predicate Blocked() { suspicious || reviewRequired }

    function Tags(): seq<string> { systemTags + userTags }
  }

  /** A human correction: only these fields may be edited. */
  datatype Edit = Edit(
    labels: map<Label, string>, folder: Option<string>, systemTags: Option<seq<string>>,
    userTags: Option<seq<string>>, doMove: Option<bool>)
  {
    function On(s: Snapshot): Snapshot {
      s.(labels := s.labels + labels,
         folder := if folder.Some? then folder.value else s.folder,
         systemTags := if systemTags.Some? then systemTags.value else s.systemTags,
         userTags := if userTags.Some? then userTags.value else s.userTags,
         doMove := if doMove.Some? then doMove.value else s.doMove)
    }
  }

  datatype Status = Proposed | Excluded | Approved | Applying | Applied | Skipped | Failed | Review

  datatype Reason = SnapshotMissing | NeedsReview | UidvalidityChanged | MissingOrMoved | ProviderError

  datatype Proposal = Proposal(
    sourceFolder: string, uidvalidity: nat, status: Status, original: Snapshot,
    edited: Option<Snapshot>, approved: Option<Snapshot>, lastError: Option<Reason>)
  {
    function Effective(): Snapshot {
      if edited.Some? then edited.value else original
    }

    predicate Queued() { status == Approved || status == Applying }
  }

  type Rows = map<nat, Proposal>

  datatype JobState = Running | Paused | Completed | Cancelled | JobFailed

  datatype ApplyJob = ApplyJob(
    state: JobState, batchSize: nat, approved: nat, processed: nat, applied: nat, skipped: nat, failed: nat, review: nat)

  // ---------------------------------------------------------------- row operations; None is the error

  function EditRow(p: Proposal, edit: Edit): Option<Proposal> {
    if p.status != Proposed then None else Some(p.(edited := Some(edit.On(p.Effective()))))
  }

  function ApproveRow(p: Proposal): Option<Proposal> {
    if p.status != Proposed || p.Effective().Blocked() then None
    else Some(p.(approved := Some(p.Effective()), status := Approved))
  }

  function ExcludeRow(p: Proposal): Option<Proposal> {
    if p.status != Proposed && p.status != Approved then None
    else Some(p.(status := Excluded, approved := None))
  }

  /** Cluster approval of one selected row: a human confirms a review flag, never suspicious content. */
  function ConfirmRow(p: Proposal): Option<Proposal> {
    var s := p.Effective();
    if p.status != Proposed || s.suspicious then None
    else if s.reviewRequired
    then ApproveRow(p.(edited := Some(s.(reviewRequired := false, humanConfirmed := true))))
    else ApproveRow(p)
  }

  function OrSame(r: Option<Proposal>, p: Proposal): Proposal {
    if r.Some? then r.value else p
  }

  function ApproveSafe(rows: Rows): Rows {
    map uid | uid in rows :: OrSame(ApproveRow(rows[uid]), rows[uid])
  }

  function ConfirmCluster(rows: Rows, selected: set<nat>): Rows {
    map uid | uid in rows :: if uid in selected then OrSame(ConfirmRow(rows[uid]), rows[uid]) else rows[uid]
  }

  /** Selected rows cluster approval leaves alone because a human may not wave them through. */
  function SuspiciousIn(rows: Rows, selected: set<nat>): set<nat> {
    set uid | uid in selected && uid in rows && rows[uid].status == Proposed && rows[uid].Effective().suspicious
  }

  function EditCluster(rows: Rows, selected: set<nat>, edit: Edit): Rows {
    map uid | uid in rows :: if uid in selected then OrSame(EditRow(rows[uid], edit), rows[uid]) else rows[uid]
  }

  // ---------------------------------------------------------------- apply job operations

  function WithStatus(rows: Rows, status: Status): set<nat> {
    set uid | uid in rows && rows[uid].status == status
  }

  function Queue(rows: Rows): set<nat> {
    set uid | uid in rows && rows[uid].Queued()
  }

  function NewApplyJob(rows: Rows, batchSize: nat): Option<ApplyJob> {
    var n := |WithStatus(rows, Approved)|;
    if n == 0 then None else Some(ApplyJob(Running, batchSize, n, 0, 0, 0, 0, 0))
  }

  predicate IsResult(status: Status) {
    status == Applied || status == Skipped || status == Failed || status == Review
  }

  function CountResult(job: ApplyJob, result: Status): ApplyJob {
    job.(processed := job.processed + 1,
         applied := job.applied + (if result == Applied then 1 else 0),
         skipped := job.skipped + (if result == Skipped then 1 else 0),
         failed := job.failed + (if result == Failed then 1 else 0),
         review := job.review + (if result == Review then 1 else 0))
  }

  function MarkRow(rows: Rows, uid: nat, result: Status, error: Option<Reason>): Rows
    requires uid in rows
  {
    rows[uid := rows[uid].(status := result, lastError := error)]
  }

  function Finalize(rows: Rows, job: ApplyJob): ApplyJob {
    if Queue(rows) == {} && job.state == Running then job.(state := Completed) else job
  }

  predicate Stale(p: Proposal) {
    (p.status == Failed || p.status == Review) && p.lastError == Some(MissingOrMoved)
  }

  function StaleRows(rows: Rows): set<nat> {
    set uid | uid in rows && Stale(rows[uid])
  }

  /** Self-heal: stale rows become skipped and the counters follow. */
  function HealRows(rows: Rows): Rows {
    map uid | uid in rows :: if Stale(rows[uid]) then rows[uid].(status := Skipped, lastError := None) else rows[uid]
  }

  function Repaired(job: ApplyJob, n: nat): ApplyJob {
    job.(review := if job.review < n then 0 else job.review - n, skipped := job.skipped + n)
  }

  function HealJob(rows: Rows, job: ApplyJob): ApplyJob { Repaired(job, |StaleRows(rows)|) }

  /** The state of a row-by-row pass that has done `done`. */
  function ApproveWithin(rows: Rows, done: set<nat>): Rows {
    map uid | uid in rows :: if uid in done then OrSame(ApproveRow(rows[uid]), rows[uid]) else rows[uid]
  }

  function HealWithin(rows: Rows, done: set<nat>): Rows {
    map uid | uid in rows ::
      if uid in done && Stale(rows[uid]) then rows[uid].(status := Skipped, lastError := None) else rows[uid]
  }

  lemma ApproveWithinGrows(rows: Rows, done: set<nat>, uid: nat)
    requires uid in rows && uid !in done
    ensures ApproveWithin(rows, done)[uid] == rows[uid]
    ensures ApproveWithin(rows, done + {uid}) == ApproveWithin(rows, done)[uid := OrSame(ApproveRow(rows[uid]), rows[uid])]
  {
  }

  lemma HealWithinGrows(rows: Rows, done: set<nat>, uid: nat)
    requires uid in rows && uid !in done
    ensures HealWithin(rows, done)[uid] == rows[uid]
    ensures HealWithin(rows, done + {uid})
         == if Stale(rows[uid]) then HealWithin(rows, done)[uid := rows[uid].(status := Skipped, lastError := None)]
            else HealWithin(rows, done)
  {
    if !Stale(rows[uid]) { assert HealWithin(rows, done + {uid}) == HealWithin(rows, done); }
  }

  lemma StaleGrows(rows: Rows, done: set<nat>, uid: nat)
    requires uid in rows && uid !in done
    ensures |StaleRows(rows) * (done + {uid})| == |StaleRows(rows) * done| + (if Stale(rows[uid]) then 1 else 0)
  {
    assert StaleRows(rows) * (done + {uid}) == StaleRows(rows) * done + (if Stale(rows[uid]) then {uid} else {});
  }

  lemma OneFewer(all: set<nat>, done: set<nat>, rest: set<nat>, uid: nat)
    requires done <= all && rest == all - done && uid in rest
    ensures done + {uid} <= all && rest - {uid} == all - (done + {uid})
  {
  }

  lemma PassComplete(rows: Rows)
    ensures ApproveWithin(rows, rows.Keys) == ApproveSafe(rows) && HealWithin(rows, rows.Keys) == HealRows(rows)
    ensures ApproveWithin(rows, {}) == rows && HealWithin(rows, {}) == rows
    ensures StaleRows(rows) * rows.Keys == StaleRows(rows)
  {
  }

  lemma ConfirmClusterGrows(rows: Rows, done: set<nat>, uid: nat)
    requires uid in rows && uid !in done
    ensures ConfirmCluster(rows, done)[uid] == rows[uid]
    ensures ConfirmCluster(rows, done + {uid})
         == ConfirmCluster(rows, done)[uid := OrSame(ConfirmRow(rows[uid]), rows[uid])]
  {
  }

  lemma ConfirmClusterPresent(rows: Rows, selected: set<nat>, chosen: set<nat>)
    requires chosen == set uid | uid in selected && uid in rows
    ensures ConfirmCluster(rows, chosen) == ConfirmCluster(rows, selected) && ConfirmCluster(rows, {}) == rows
    ensures SuspiciousIn(rows, chosen) == SuspiciousIn(rows, selected) && SuspiciousIn(rows, {}) == {}
  {
  }

  lemma EditClusterGrows(rows: Rows, done: set<nat>, edit: Edit, uid: nat)
    requires uid in rows && uid !in done
    ensures EditCluster(rows, done, edit)[uid] == rows[uid]
    ensures uid in WithStatus(rows, Proposed) <==> EditRow(rows[uid], edit).Some?
    ensures EditCluster(rows, done + {uid}, edit)
         == EditCluster(rows, done, edit)[uid := OrSame(EditRow(rows[uid], edit), rows[uid])]
  {
  }

  lemma CountGrows(done: set<nat>, open: set<nat>, uid: nat)
    requires uid !in done
    ensures |(done + {uid}) * open| == |done * open| + (if uid in open then 1 else 0)
    ensures |(done + {uid}) - open| == |done - open| + (if uid in open then 0 else 1)
  {
    assert (done + {uid}) * open == done * open + (if uid in open then {uid} else {});
    assert (done + {uid}) - open == (done - open) + (if uid in open then {} else {uid});
  }

  lemma SuspiciousGrows(rows: Rows, done: set<nat>, uid: nat)
    requires uid in rows && uid !in done
    ensures |SuspiciousIn(rows, done + {uid})|
         == |SuspiciousIn(rows, done)| + (if rows[uid].status == Proposed && rows[uid].Effective().suspicious then 1 else 0)
  {
    assert SuspiciousIn(rows, done + {uid}) == SuspiciousIn(rows, done)
      + (if rows[uid].status == Proposed && rows[uid].Effective().suspicious then {uid} else {});
  }

  lemma ApprovedGrows(rows: Rows, uid: nat, p: Proposal)
    requires uid in rows && rows[uid].status != Approved && p.status == Approved
    ensures |WithStatus(rows[uid := p], Approved)| == |WithStatus(rows, Approved)| + 1
  {
    assert WithStatus(rows[uid := p], Approved) == WithStatus(rows, Approved) + {uid};
  }

  // ---------------------------------------------------------------- the repository and its handlers

  class BulkRepository {
    var rows: Rows
    var job: Option<ApplyJob>

    constructor ()
      ensures rows == map[] && job == None
    {
      rows, job := map[], None;
    }

    method CreateProposal(uid: nat, folder: string, uidvalidity: nat, snapshot: Snapshot)
      modifies this`rows
      ensures rows == if uid in old(rows) then old(rows)
                      else old(rows)[uid := Proposal(folder, uidvalidity, Proposed, snapshot, None, None, None)]
    {
      if uid !in rows {
        rows := rows[uid := Proposal(folder, uidvalidity, Proposed, snapshot, None, None, None)];
      }
    }

    method EditProposal(uid: nat, edit: Edit) returns (ok: bool)
      requires uid in rows
      modifies this`rows
      ensures ok == EditRow(old(rows)[uid], edit).Some?
      ensures rows == old(rows)[uid := OrSame(EditRow(old(rows)[uid], edit), old(rows)[uid])]
    {
      if rows[uid].status != Proposed { return false; }
      var updated := edit.On(rows[uid].Effective());
      rows := rows[uid := rows[uid].(edited := Some(updated))];
      return true;
    }

    method ExcludeProposal(uid: nat) returns (ok: bool)
      requires uid in rows
      modifies this`rows
      ensures ok == ExcludeRow(old(rows)[uid]).Some?
      ensures rows == old(rows)[uid := OrSame(ExcludeRow(old(rows)[uid]), old(rows)[uid])]
    {
      if rows[uid].status != Proposed && rows[uid].status != Approved { return false; }
      rows := rows[uid := rows[uid].(status := Excluded, approved := None)];
      return true;
    }

    method ApproveProposal(uid: nat) returns (ok: bool)
      requires uid in rows
      modifies this`rows
      ensures ok == ApproveRow(old(rows)[uid]).Some?
      ensures rows == old(rows)[uid := OrSame(ApproveRow(old(rows)[uid]), old(rows)[uid])]
    {
      if rows[uid].status != Proposed { return false; }
      var snapshot := rows[uid].Effective();
      if snapshot.suspicious || snapshot.reviewRequired { return false; }
      rows := rows[uid := rows[uid].(approved := Some(snapshot), status := Approved)];
      return true;
    }

    /** Approve every proposed row that needs no review. */
    method ApproveAllSafe() returns (approved: nat)
      modifies this`rows
      ensures rows == ApproveSafe(old(rows))
      ensures approved == |WithStatus(rows, Approved)| - |WithStatus(old(rows), Approved)|
    {
      approved := 0;
      var rest := rows.Keys;
      ghost var before := rows;
      ghost var done: set<nat> := {};
      PassComplete(before);
      while rest != {}
        invariant done <= before.Keys && rest == before.Keys - done
        invariant rows == ApproveWithin(before, done)
        invariant |WithStatus(rows, Approved)| == |WithStatus(before, Approved)| + approved
        decreases rest
      {
        var uid :| uid in rest;
        ApproveWithinGrows(before, done, uid);
        OneFewer(before.Keys, done, rest, uid);
        rest, done := rest - {uid}, done + {uid};
        if rows[uid].status == Proposed && !rows[uid].Effective().Blocked() {
          ApprovedGrows(rows, uid, ApproveRow(rows[uid]).value);
          var ok := ApproveProposal(uid);
          approved := approved + 1;
        }
      }
      assert done == before.Keys;
    }

    /** Cluster approval of one row: a review flag is confirmed first. */
    method ConfirmProposal(uid: nat)
      requires uid in rows && rows[uid].status == Proposed && !rows[uid].Effective().suspicious
      modifies this`rows
      ensures ConfirmRow(old(rows)[uid]).Some? && rows == old(rows)[uid := ConfirmRow(old(rows)[uid]).value]
      ensures rows[uid].status == Approved
    {
      var snapshot := rows[uid].Effective();
      if snapshot.reviewRequired {
        rows := rows[uid := rows[uid].(edited := Some(snapshot.(reviewRequired := false, humanConfirmed := true)))];
      }
      var ok := ApproveProposal(uid);
    }

    /** One turn of the cluster loop. */
    method ConsiderProposal(uid: nat) returns (approved: nat, blocked: nat)
      requires uid in rows
      modifies this`rows
      ensures rows == old(rows)[uid := OrSame(ConfirmRow(old(rows)[uid]), old(rows)[uid])]
      ensures |WithStatus(rows, Approved)| == |WithStatus(old(rows), Approved)| + approved
      ensures blocked == if old(rows)[uid].status == Proposed && old(rows)[uid].Effective().suspicious then 1 else 0
    {
      assert rows[uid := rows[uid]] == rows;
      if rows[uid].status != Proposed { return 0, 0; }
      if rows[uid].Effective().suspicious { return 0, 1; }
      ApprovedGrows(rows, uid, ConfirmRow(rows[uid]).value);
      ConfirmProposal(uid);
      return 1, 0;
    }

    /** Approve a whole cluster; suspicious rows are counted as blocked. */
    method ApproveCluster(selected: set<nat>) returns (approved: nat, blocked: nat)
      modifies this`rows
      ensures rows == ConfirmCluster(old(rows), selected)
      ensures approved == |WithStatus(rows, Approved)| - |WithStatus(old(rows), Approved)|
      ensures blocked == |SuspiciousIn(old(rows), selected)|
    {
      approved, blocked := 0, 0;
      ghost var before := rows;
      ghost var done: set<nat> := {};
      var chosen := set uid | uid in selected && uid in rows;
      var rest := chosen;
      ConfirmClusterPresent(before, selected, chosen);
      while rest != {}
        invariant done <= chosen && rest == chosen - done
        invariant rows == ConfirmCluster(before, done)
        invariant |WithStatus(rows, Approved)| == |WithStatus(before, Approved)| + approved
        invariant blocked == |SuspiciousIn(before, done)|
        decreases rest
      {
        var uid :| uid in rest;
        ConfirmClusterGrows(before, done, uid);
        SuspiciousGrows(before, done, uid);
        OneFewer(chosen, done, rest, uid);
        rest, done := rest - {uid}, done + {uid};
        var a, b := ConsiderProposal(uid);
        approved, blocked := approved + a, blocked + b;
      }
      assert done == chosen;
    }

    /** One turn of the cluster edit. */
    method EditOrSkip(uid: nat, edit: Edit) returns (edited: nat, skipped: nat)
      requires uid in rows
      modifies this`rows
      ensures rows == old(rows)[uid := OrSame(EditRow(old(rows)[uid], edit), old(rows)[uid])]
      ensures if EditRow(old(rows)[uid], edit).Some? then edited == 1 && skipped == 0 else edited == 0 && skipped == 1
    {
      assert rows[uid := rows[uid]] == rows;
      if rows[uid].status != Proposed { return 0, 1; }
      var ok := EditProposal(uid, edit);
      return 1, 0;
    }

    /** Edit a whole cluster; rows already decided are skipped. */
    method EditSelected(selected: set<nat>, edit: Edit) returns (edited: nat, skipped: nat)
      requires selected <= rows.Keys
      modifies this`rows
      ensures rows == EditCluster(old(rows), selected, edit)
      ensures edited == |selected * WithStatus(old(rows), Proposed)|
      ensures skipped == |selected - WithStatus(old(rows), Proposed)|
    {
      edited, skipped := 0, 0;
      ghost var before := rows;
      ghost var done: set<nat> := {};
      ghost var open := WithStatus(rows, Proposed);
      var rest := selected;
      while rest != {}
        invariant done <= selected && rest == selected - done
        invariant rows == EditCluster(before, done, edit)
        invariant edited == |done * open| && skipped == |done - open|
        decreases rest
      {
        var uid :| uid in rest;
        EditClusterGrows(before, done, edit, uid);
        CountGrows(done, open, uid);
        OneFewer(selected, done, rest, uid);
        rest, done := rest - {uid}, done + {uid};
        var e, s := EditOrSkip(uid, edit);
        edited, skipped := edited + e, skipped + s;
        assert rows == EditCluster(before, done, edit);
      }
      assert done == selected;
    }

    /** Requests to start applying return the existing job, if any. */
    method CreateApplyJob(batchSize: nat) returns (ok: bool)
      modifies this`job
      ensures job == if old(job).Some? then old(job) else NewApplyJob(rows, batchSize)
      ensures ok == job.Some?
    {
      if job.Some? { return true; }
      var approved := |WithStatus(rows, Approved)|;
      if approved == 0 { return false; }
      job := Some(ApplyJob(Running, batchSize, approved, 0, 0, 0, 0, 0));
      return true;
    }

    method MarkResult(uid: nat, result: Status, error: Option<Reason>)
      requires uid in rows && job.Some? && IsResult(result)
      modifies this
      ensures rows == MarkRow(old(rows), uid, result, error)
      ensures job == Some(CountResult(old(job).value, result))
    {
      rows := rows[uid := rows[uid].(status := result, lastError := error)];
      var j := job.value;
      j := j.(processed := j.processed + 1);
      match result {
        case Applied => j := j.(applied := j.applied + 1);
        case Skipped => j := j.(skipped := j.skipped + 1);
        case Failed => j := j.(failed := j.failed + 1);
        case Review => j := j.(review := j.review + 1);
      }
      job := Some(j);
    }

    method FinalizeIfDone()
      requires job.Some?
      modifies this`job
      ensures job == Some(Finalize(rows, old(job).value))
    {
      var remaining := |Queue(rows)|;
      if remaining == 0 && job.value.state == Running {
        job := Some(job.value.(state := Completed));
      }
    }

    method HealProposal(uid: nat) returns (healed: bool)
      requires uid in rows
      modifies this`rows
      ensures healed == Stale(old(rows)[uid])
      ensures rows == if healed then old(rows)[uid := old(rows)[uid].(status := Skipped, lastError := None)] else old(rows)
    {
      var p := rows[uid];
      healed := (p.status == Failed || p.status == Review) && p.lastError == Some(MissingOrMoved);
      if healed { rows := rows[uid := p.(status := Skipped, lastError := None)]; }
    }

    /** The self-heal inside the operational review listing. */
    method HealStale()
      modifies this
      ensures rows == HealRows(old(rows))
      ensures job == if old(job).Some? then Some(HealJob(old(rows), old(job).value)) else None
    {
      ghost var before := rows;
      ghost var done: set<nat> := {};
      var rest, repaired := rows.Keys, 0;
      PassComplete(before);
      while rest != {}
        invariant done <= before.Keys && rest == before.Keys - done && job == old(job)
        invariant rows == HealWithin(before, done)
        invariant repaired == |StaleRows(before) * done|
        decreases rest
      {
        var uid :| uid in rest;
        HealWithinGrows(before, done, uid);
        StaleGrows(before, done, uid);
        OneFewer(before.Keys, done, rest, uid);
        rest, done := rest - {uid}, done + {uid};
        var healed := HealProposal(uid);
        if healed { repaired := repaired + 1; }
      }
      assert done == before.Keys;
      assert repaired == |StaleRows(before)|;
      RepairJob(repaired);
    }

    method RepairJob(repaired: nat)
      modifies this`job
      ensures job == if old(job).Some? then Some(Repaired(old(job).value, repaired)) else None
    {
      if job.Some? && repaired > 0 {
        var j := job.value;
        var review := if j.review < repaired then 0 else j.review - repaired;
        job := Some(j.(review := review, skipped := j.skipped + repaired));
      }
    }
  }
}
