/** What is applied is what was approved, and the apply counters are the rows, over every run of human
    decisions, applying, provider failures, crashes and self-heal. */
module BulkApplySafety {
  import opened Common
  import opened BulkRows
  import opened BulkApply

  // ---------------------------------------------------------------- what is applied is what was approved

  ghost predicate RowInv(p: Proposal, uid: nat, approvals: map<nat, Snapshot>) {
    && (p.edited.Some? ==> p.edited.value.suspicious == p.original.suspicious)
    && (p.approved.Some? ==>
          uid in approvals && approvals[uid] == p.approved.value
          && !p.approved.value.Blocked() && !p.original.suspicious)
    && (p.status == Proposed ==> p.approved.None? && uid !in approvals)
    && (p.Queued() ==> p.approved.Some?)
  }

  ghost predicate RowsInv(rows: Rows, approvals: map<nat, Snapshot>) {
    (forall uid <- rows :: RowInv(rows[uid], uid, approvals)) && (forall uid <- approvals :: uid in rows)
  }

  /** What never changes in a row: its position and the snapshot it was created with. */
  predicate SameOrigin(p: Proposal, p': Proposal) {
    p'.original == p.original && p'.uidvalidity == p.uidvalidity && p'.sourceFolder == p.sourceFolder
  }

  /** A copy the batch holds agrees with its row on what never changes. */
  ghost predicate ItemInv(s: System, item: Item) {
    && item.uid in s.world.rows
    && SameOrigin(s.world.rows[item.uid], item.proposal)
    && RowInv(item.proposal, item.uid, s.approvals)
    && item.proposal.Queued()
  }

  function Items(l: Local): seq<Item> {
    match l
    case Idle => []
    case Batch(todo) => todo
    case Fetching(item, _, todo) => [item] + todo
    case Acting(item, _, _, _, todo) => [item] + todo
    case Result(item, _, _, todo) => [item] + todo
  }

  predicate IsSuffix(left: seq<Command>, plan: seq<Command>) {
    |left| <= |plan| && left == plan[|plan| - |left|..]
  }

  /** What the batch knows about the message in its hands. */
  ghost predicate HoldInv(l: Local) {
    && (l.Fetching? || l.Acting? ==> l.item.proposal.approved == Some(l.snapshot))
    && (l.Acting? ==>
          l.seen == l.item.proposal.uidvalidity && IsSuffix(l.left, Plan(l.item.proposal, l.snapshot)))
    && (l.Result? ==> IsResult(l.result) && l.error != Some(MissingOrMoved))
  }

  ghost predicate ItemsInv(s: System, items: seq<Item>) {
    forall i :: 0 <= i < |items| ==> ItemInv(s, items[i])
  }

  ghost predicate LocalInv(s: System) {
    ItemsInv(s, Items(s.local)) && HoldInv(s.local)
  }

  /** The command is one the snapshot stored at this message's approval calls for, sent to the position the proposal
      was made for after a fetch under its UIDVALIDITY, and the message was never suspicious. */
  ghost predicate Authorized(s: System, e: Effect) {
    && e.uid in s.approvals && e.snapshot == s.approvals[e.uid] && !e.snapshot.Blocked()
    && e.uid in s.world.rows && e.seen == s.world.rows[e.uid].uidvalidity
    && !s.world.rows[e.uid].original.suspicious
    && e.command in Plan(s.world.rows[e.uid], e.snapshot)
  }

  ghost predicate TraceInv(s: System) {
    forall i :: 0 <= i < |s.trace| ==> Authorized(s, s.trace[i])
  }

  ghost predicate ApprovalInv(s: System) {
    && RowsInv(s.world.rows, s.approvals) && LocalInv(s) && TraceInv(s)
  }

  /** Rows are kept, with the snapshot and position they were created with. */
  ghost predicate OriginalsKept(before: Rows, after: Rows) {
    forall uid <- before :: uid in after && SameOrigin(before[uid], after[uid])
  }

  /** What one decision step may do to one row. */
  predicate Decided(p: Proposal, p': Proposal, edit: Edit) {
    || p' == p || p' == OrSame(EditRow(p, edit), p) || p' == OrSame(ApproveRow(p), p)
    || p' == OrSame(ConfirmRow(p), p) || p' == OrSame(ExcludeRow(p), p)
  }

  predicate Fresh(p: Proposal) {
    p.status == Proposed && p.approved.None? && p.edited.None?
  }

  ghost predicate Decisions(rows: Rows, rows': Rows, edit: Edit) {
    && (forall uid <- rows :: uid in rows' && Decided(rows[uid], rows'[uid], edit))
    && (forall uid <- rows' :: uid in rows || Fresh(rows'[uid]))
  }

  function EditOf(step: Step): Edit {
    if step.EditRows? then step.edit else Edit(map[], None, None, None, None)
  }

  lemma DecideDecides(rows: Rows, step: Step)
    requires step.Decides()
    ensures Decisions(rows, Decide(rows, step), EditOf(step))
  {
    var rows' := Decide(rows, step);
    forall uid <- rows ensures uid in rows' && Decided(rows[uid], rows'[uid], EditOf(step)) {
    }
    forall uid <- rows' ensures uid in rows || Fresh(rows'[uid]) {
    }
  }

  lemma DecidedKeepsRow(p: Proposal, p': Proposal, uid: nat, approvals: map<nat, Snapshot>, edit: Edit)
    requires RowInv(p, uid, approvals) && Decided(p, p', edit)
    ensures SameOrigin(p, p')
    ensures p.status == Proposed && p'.status == Approved ==>
              p'.approved.Some? && RowInv(p', uid, approvals[uid := p'.approved.value])
    ensures !(p.status == Proposed && p'.status == Approved) ==> RowInv(p', uid, approvals)
  {
  }

  lemma DecisionsKeepRow(rows: Rows, rows': Rows, edit: Edit, approvals: map<nat, Snapshot>, uid: nat)
    requires RowsInv(rows, approvals) && Decisions(rows, rows', edit) && uid in rows'
    ensures RowInv(rows'[uid], uid, approvals + NewApprovals(rows, rows'))
    ensures uid in rows ==> SameOrigin(rows[uid], rows'[uid])
    ensures uid in NewApprovals(rows, rows') ==> uid !in approvals
  {
    if uid in rows {
      assert RowInv(rows[uid], uid, approvals);
      DecidedKeepsRow(rows[uid], rows'[uid], uid, approvals, edit);
    }
  }

  /** Decisions keep the approval invariant: an approval never rewrites an earlier one. */
  lemma DecisionsKeep(s: System, rows': Rows, edit: Edit)
    requires ApprovalInv(s) && Decisions(s.world.rows, rows', edit)
    ensures ApprovalInv(WithRows(s, rows')) && OriginalsKept(s.world.rows, rows')
  {
    var s' := WithRows(s, rows');
    forall uid <- rows'
      ensures RowInv(rows'[uid], uid, s'.approvals)
      ensures uid in s.world.rows ==> SameOrigin(s.world.rows[uid], rows'[uid])
      ensures uid in NewApprovals(s.world.rows, rows') ==> uid !in s.approvals
    {
      DecisionsKeepRow(s.world.rows, rows', edit, s.approvals, uid);
    }
    ApprovalsGrow(s, s');
  }

  /** Growing the approvals without changing old ones, and keeping originals, keeps copies and effects. */
  lemma ApprovalsGrow(s: System, s': System)
    requires LocalInv(s) && TraceInv(s)
    requires s'.local == s.local && s'.trace == s.trace && OriginalsKept(s.world.rows, s'.world.rows)
    requires forall uid <- s.approvals :: uid in s'.approvals && s'.approvals[uid] == s.approvals[uid]
    ensures LocalInv(s') && TraceInv(s')
  {
    var items := Items(s.local);
    forall i | 0 <= i < |items| ensures ItemInv(s', items[i]) { assert ItemInv(s, items[i]); }
    forall i | 0 <= i < |s'.trace| ensures Authorized(s', s'.trace[i]) { assert Authorized(s, s.trace[i]); }
  }

  // ---------------------------------------------------------------- the batch and the other steps

  /** The batch moves on: it drops some messages, or sends one authorized command. */
  lemma MovesOn(s: System, s': System, dropped: nat)
    requires ApprovalInv(s) && HoldInv(s'.local)
    requires s'.world.rows == s.world.rows && s'.approvals == s.approvals
    requires dropped <= |Items(s.local)| && Items(s'.local) == Items(s.local)[dropped..]
    requires s'.trace == s.trace || (exists e :: Authorized(s, e) && s'.trace == s.trace + [e])
    ensures ApprovalInv(s')
  {
    var items := Items(s.local);
    forall i | 0 <= i < |Items(s'.local)| ensures ItemInv(s', Items(s'.local)[i]) {
      assert ItemInv(s, items[i + dropped]);
    }
    forall i | 0 <= i < |s'.trace| ensures Authorized(s', s'.trace[i]) {
      if i < |s.trace| { assert Authorized(s, s.trace[i]); }
    }
  }

  lemma ReadKeeps(s: System, items: seq<Item>)
    requires ApprovalInv(s)
    ensures ApprovalInv(BatchStep(s, ReadBatch(items)))
  {
    var s' := BatchStep(s, ReadBatch(items));
    if s' != s {
      forall i | 0 <= i < |items| ensures ItemInv(s', items[i]) {
        assert RowInv(s.world.rows[items[i].uid], items[i].uid, s.approvals);
      }
      forall i | 0 <= i < |s'.trace| ensures Authorized(s', s'.trace[i]) { assert Authorized(s, s.trace[i]); }
    }
  }

  lemma TakeKeeps(s: System)
    requires ApprovalInv(s)
    ensures ApprovalInv(BatchStep(s, Take))
  {
    if s.local.Batch? && s.local.todo != [] {
      var item, rest := s.local.todo[0], s.local.todo[1..];
      assert [item] + rest == s.local.todo;
      assert ItemInv(s, Items(s.local)[0]);
      MovesOn(s, TakeItem(s, item, rest), 0);
    }
  }

  lemma FetchKeeps(s: System, step: Step)
    requires ApprovalInv(s) && (step.Fetch? || step.ProviderFails? || step.Close? || step.Crash?)
    ensures ApprovalInv(BatchStep(s, step))
  {
    MovesOn(s, BatchStep(s, step), if step.Crash? then |Items(s.local)| else 0);
  }

  lemma NextInPlan(left: seq<Command>, plan: seq<Command>)
    requires IsSuffix(left, plan) && left != []
    ensures left[0] in plan && IsSuffix(left[1..], plan)
  {
    assert left[0] == plan[|plan| - |left|];
  }

  lemma SendKeeps(s: System)
    requires ApprovalInv(s) && s.local.Acting?
    ensures ApprovalInv(BatchStep(s, Send))
  {
    var l := s.local;
    if l.left == [] {
      MovesOn(s, BatchStep(s, Send), 0);
    } else {
      var e := Effect(l.item.uid, l.snapshot, l.seen, s.world.mail.uidvalidity, l.left[0]);
      assert Items(l)[0] == l.item && ItemInv(s, l.item);
      NextInPlan(l.left, Plan(l.item.proposal, l.snapshot));
      assert Authorized(s, e);
      MovesOn(s, BatchStep(s, Send), 0);
    }
  }

  /** Changing only the outcome of rows, never to proposed or queued, keeps everything. */
  lemma OutcomesKeep(s: System, rows': Rows, s': System)
    requires ApprovalInv(s) && rows'.Keys == s.world.rows.Keys
    requires forall uid <- rows' :: var p, p' := s.world.rows[uid], rows'[uid];
      p' == p || (p' == p.(status := p'.status, lastError := p'.lastError) && IsResult(p'.status))
    requires s'.world.rows == rows' && s'.approvals == s.approvals && s'.trace == s.trace
    requires s'.local == s.local
    ensures ApprovalInv(s') && OriginalsKept(s.world.rows, rows')
  {
    forall uid <- rows' ensures RowInv(rows'[uid], uid, s.approvals) {
      assert RowInv(s.world.rows[uid], uid, s.approvals);
    }
    ApprovalsGrow(s, s');
  }

  lemma MarkKeeps(s: System)
    requires ApprovalInv(s)
    ensures ApprovalInv(BatchStep(s, Mark)) && OriginalsKept(s.world.rows, BatchStep(s, Mark).world.rows)
  {
    var s' := BatchStep(s, Mark);
    if s' != s {
      var middle := s'.(local := s.local);
      OutcomesKeep(s, s'.world.rows, middle);
      MovesOn(middle, s', 1);
    }
  }

  lemma OthersKeep(s: System, step: Step)
    requires ApprovalInv(s) && !step.ByBatch() && !step.Decides()
    ensures Keeps(s, OthersStep(s, step))
  {
    OutcomesKeep(s, OthersStep(s, step).world.rows, OthersStep(s, step));
  }

  ghost predicate ApprovalsKept(before: map<nat, Snapshot>, after: map<nat, Snapshot>) {
    forall uid <- before :: uid in after && after[uid] == before[uid]
  }

  ghost predicate Keeps(s: System, s': System) {
    ApprovalInv(s') && OriginalsKept(s.world.rows, s'.world.rows) && ApprovalsKept(s.approvals, s'.approvals)
  }

  lemma DecideKeeps(s: System, step: Step)
    requires ApprovalInv(s) && step.Decides()
    ensures Keeps(s, WithRows(s, Decide(s.world.rows, step)))
  {
    var rows' := Decide(s.world.rows, step);
    DecideDecides(s.world.rows, step);
    DecisionsKeep(s, rows', EditOf(step));
    forall uid <- NewApprovals(s.world.rows, rows') ensures uid !in s.approvals {
      DecisionsKeepRow(s.world.rows, rows', EditOf(step), s.approvals, uid);
    }
  }

  lemma BatchKeepsRows(s: System, step: Step)
    requires step.ByBatch() && !step.Mark?
    ensures BatchStep(s, step).world.rows == s.world.rows && BatchStep(s, step).approvals == s.approvals
  {
  }

  lemma SameRowsKeep(s: System, s': System)
    requires ApprovalInv(s') && s'.world.rows == s.world.rows && s'.approvals == s.approvals
    ensures Keeps(s, s')
  {
  }

  lemma BatchKeeps(s: System, step: Step)
    requires ApprovalInv(s) && step.ByBatch()
    ensures Keeps(s, BatchStep(s, step))
  {
    if step.Mark? {
      MarkKeeps(s);
    } else {
      BatchKeepsInv(s, step);
      BatchKeepsRows(s, step);
      SameRowsKeep(s, BatchStep(s, step));
    }
  }

  lemma BatchKeepsInv(s: System, step: Step)
    requires ApprovalInv(s) && step.ByBatch() && !step.Mark?
    ensures ApprovalInv(BatchStep(s, step))
  {
    match step
    case ReadBatch(items) => ReadKeeps(s, items);
    case Take => TakeKeeps(s);
    case Send => if s.local.Acting? { SendKeeps(s); }
    case _ => FetchKeeps(s, step);
  }

  lemma StepKeeps(s: System, step: Step)
    requires ApprovalInv(s)
    ensures Keeps(s, Apply(s, step))
  {
    if step.Decides() {
      DecideKeeps(s, step);
    } else if !step.ByBatch() {
      OthersKeep(s, step);
    } else {
      BatchKeeps(s, step);
    }
  }

  /** Over every run: each command ever sent is authorized by the one approval its message ever got;
      original snapshots, positions and approvals never change. */
  lemma {:induction false} AppliedIsApproved(s: System, steps: seq<Step>)
    requires ApprovalInv(s)
    ensures Keeps(s, Exec(s, steps))
    decreases |steps|
  {
    if steps != [] {
      StepKeeps(s, steps[0]);
      AppliedIsApproved(Apply(s, steps[0]), steps[1..]);
    }
  }

  /** The same from an empty job, read off the trace. */
  lemma AppliedFromStart(mail: Mail, steps: seq<Step>, i: nat)
    requires i < |Exec(Start(mail), steps).trace|
    ensures var end, e := Exec(Start(mail), steps), Exec(Start(mail), steps).trace[i];
      && e.uid in end.approvals && e.snapshot == end.approvals[e.uid] && !e.snapshot.Blocked()
      && e.uid in end.world.rows && e.seen == end.world.rows[e.uid].uidvalidity
      && !end.world.rows[e.uid].original.suspicious
      && e.command in Plan(end.world.rows[e.uid], e.snapshot)
  {
    AppliedIsApproved(Start(mail), steps);
    assert Authorized(Exec(Start(mail), steps), Exec(Start(mail), steps).trace[i]);
  }

  // ---------------------------------------------------------------- approving, and excluding in time

  /** The snapshot an approval stores is the one the person saw, but for a review flag confirmed with it. */
  lemma ApprovalStoresWhatWasSeen(rows: Rows, step: Step, uid: nat)
    requires step.Decides() && uid in NewApprovals(rows, Decide(rows, step))
    ensures var seen, stored := rows[uid].Effective(), NewApprovals(rows, Decide(rows, step))[uid];
      && !seen.suspicious && !stored.Blocked()
      && (if step.ApproveCluster? && seen.reviewRequired
          then uid in step.selected && stored == seen.(reviewRequired := false, humanConfirmed := true)
          else stored == seen)
  {
  }

  /** Excluded, and not in the hands of the batch. */
  ghost predicate OutOfReach(s: System, uid: nat) {
    && uid in s.world.rows && s.world.rows[uid].status == Excluded
    && forall i :: 0 <= i < |Items(s.local)| ==> Items(s.local)[i].uid != uid
  }

  ghost predicate NoNewEffect(before: seq<Effect>, after: seq<Effect>, uid: nat) {
    && |before| <= |after| && after[..|before|] == before
    && forall i :: |before| <= i < |after| ==> after[i].uid != uid
  }

  lemma DecideLeavesExcluded(rows: Rows, step: Step, uid: nat)
    requires step.Decides() && uid in rows && rows[uid].status == Excluded
    ensures uid in Decide(rows, step) && Decide(rows, step)[uid].status == Excluded
  {
    DecideDecides(rows, step);
  }

  lemma ItemsShrink(s: System, step: Step)
    requires step.ByBatch() && !step.ReadBatch?
    ensures exists k :: 0 <= k <= |Items(s.local)| && Items(BatchStep(s, step).local) == Items(s.local)[k..]
  {
    var k := if step.Crash? then |Items(s.local)|
             else if step.Mark? && BatchStep(s, step) != s then 1 else 0;
    if step.Take? && s.local.Batch? && s.local.todo != [] {
      assert [s.local.todo[0]] + s.local.todo[1..] == s.local.todo;
    }
    assert Items(BatchStep(s, step).local) == Items(s.local)[k..];
  }

  lemma BatchLeavesOutOfReach(s: System, step: Step, uid: nat)
    requires OutOfReach(s, uid) && step.ByBatch()
    ensures OutOfReach(BatchStep(s, step), uid) && NoNewEffect(s.trace, BatchStep(s, step).trace, uid)
  {
    var s' := BatchStep(s, step);
    if step.ReadBatch? {
      forall i | 0 <= i < |Items(s'.local)| ensures Items(s'.local)[i].uid != uid {
      }
    } else {
      ItemsShrink(s, step);
      if s.local.Acting? || s.local.Result? { assert Items(s.local)[0].uid != uid; }
    }
  }

  lemma StepLeavesOutOfReach(s: System, step: Step, uid: nat)
    requires OutOfReach(s, uid)
    ensures OutOfReach(Apply(s, step), uid) && NoNewEffect(s.trace, Apply(s, step).trace, uid)
  {
    if step.ByBatch() {
      BatchLeavesOutOfReach(s, step, uid);
    } else if step.Decides() {
      DecideLeavesExcluded(s.world.rows, step, uid);
    }
  }

  /** No command is ever addressed to a message excluded before a batch reads it, whatever happens. */
  lemma {:induction false} ExcludedInTime(s: System, steps: seq<Step>, uid: nat)
    requires OutOfReach(s, uid)
    ensures OutOfReach(Exec(s, steps), uid) && NoNewEffect(s.trace, Exec(s, steps).trace, uid)
    decreases |steps|
  {
    if steps != [] {
      StepLeavesOutOfReach(s, steps[0], uid);
      ExcludedInTime(Apply(s, steps[0]), steps[1..], uid);
    }
  }

  function Sends(n: nat): seq<Step> { seq(n, i => Send) }

  function Sent(item: Item, snapshot: Snapshot, seen: nat, uidvalidity: nat, cs: seq<Command>): seq<Effect> {
    seq(|cs|, i requires 0 <= i < |cs| => Effect(item.uid, snapshot, seen, uidvalidity, cs[i]))
  }

  lemma {:induction false} SendAll(s: System)
    requires s.local.Acting?
    ensures var l, end := s.local, Exec(s, Sends(|s.local.left| + 1));
      && end.world == s.world.(mail := PerformAll(s.world.mail, l.item.uid, l.left))
      && end.local == Result(l.item, if HasAction(l.item.proposal, l.snapshot) then Applied else Skipped, None, l.todo)
      && end.trace == s.trace + Sent(l.item, l.snapshot, l.seen, s.world.mail.uidvalidity, l.left)
    decreases |s.local.left|
  {
    var l := s.local;
    assert Sends(|l.left| + 1)[1..] == Sends(|l.left|);
    if l.left == [] {
      assert Exec(Apply(s, Send), []) == Apply(s, Send);
    } else {
      SendAll(Apply(s, Send));
    }
  }

  lemma ExecConcat(s: System, before: seq<Step>, after: seq<Step>)
    ensures Exec(s, before + after) == Exec(Exec(s, before), after)
    decreases |before|
  {
    if before == [] {
      assert before + after == after;
    } else {
      assert (before + after)[1..] == before[1..] + after;
      ExecConcat(Apply(s, before[0]), before[1..], after);
    }
  }
}
