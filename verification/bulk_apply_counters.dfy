/** The apply job's counters are the numbers of rows in each final status, over every run. */
module BulkApplyCounters {
  import opened Common
  import opened BulkRows
  import opened BulkApply
  import opened BulkApplySafety

  function Tally(rows: Rows, status: Status): nat { |WithStatus(rows, status)| }

  ghost predicate CountersAreRows(rows: Rows, job: Option<ApplyJob>) {
    match job
    case None => forall uid <- rows :: !IsResult(rows[uid].status)
    case Some(j) =>
      && j.applied == Tally(rows, Applied) && j.skipped == Tally(rows, Skipped)
      && j.failed == Tally(rows, Failed) && j.review == Tally(rows, Review)
      && j.processed == j.applied + j.skipped + j.failed + j.review
  }

  function StaleFailed(rows: Rows): set<nat> {
    set uid | uid in StaleRows(rows) && rows[uid].status == Failed
  }

  /** Rows of older versions may be stale, but only as review rows; what the batch holds is undecided. */
  ghost predicate TallyInv(s: System) {
    && CountersAreRows(s.world.rows, s.world.job) && StaleFailed(s.world.rows) == {}
    && Ascending(Items(s.local))
    && (forall i :: 0 <= i < |Items(s.local)| ==>
          Items(s.local)[i].uid in s.world.rows && !IsResult(s.world.rows[Items(s.local)[i].uid].status))
    && (s.local.Result? ==> IsResult(s.local.result) && s.local.error != Some(MissingOrMoved))
  }

  // ---------------------------------------------------------------- one row, all rows

  lemma MarkTallies(rows: Rows, uid: nat, result: Status, error: Option<Reason>, status: Status)
    requires uid in rows && !IsResult(rows[uid].status) && IsResult(result) && IsResult(status)
    ensures Tally(MarkRow(rows, uid, result, error), status) == Tally(rows, status) + (if status == result then 1 else 0)
  {
    assert WithStatus(MarkRow(rows, uid, result, error), status)
        == WithStatus(rows, status) + (if status == result then {uid} else {});
  }

  lemma MarkCounts(rows: Rows, job: ApplyJob, uid: nat, result: Status, error: Option<Reason>)
    requires CountersAreRows(rows, Some(job)) && StaleFailed(rows) == {}
    requires uid in rows && !IsResult(rows[uid].status) && IsResult(result) && error != Some(MissingOrMoved)
    ensures CountersAreRows(MarkRow(rows, uid, result, error), Some(CountResult(job, result)))
    ensures StaleFailed(MarkRow(rows, uid, result, error)) == {}
  {
    MarkTallies(rows, uid, result, error, Applied);
    MarkTallies(rows, uid, result, error, Skipped);
    MarkTallies(rows, uid, result, error, Failed);
    MarkTallies(rows, uid, result, error, Review);
    forall u <- MarkRow(rows, uid, result, error) ensures u !in StaleFailed(MarkRow(rows, uid, result, error)) {
      assert u !in StaleFailed(rows);
    }
  }

  lemma SplitSize<T>(whole: set<T>, part: set<T>)
    requires part <= whole
    ensures |whole - part| == |whole| - |part|
  {
    assert whole == (whole - part) + part;
  }

  lemma HealedRow(rows: Rows, uid: nat)
    requires uid in rows
    ensures uid in HealRows(rows)
    ensures HealRows(rows)[uid].status == if Stale(rows[uid]) then Skipped else rows[uid].status
    ensures Stale(rows[uid]) ==> rows[uid].status == Failed || rows[uid].status == Review
  {
  }

  lemma HealedStatus(rows: Rows, status: Status)
    requires status != Skipped
    ensures WithStatus(HealRows(rows), status) == WithStatus(rows, status) - StaleRows(rows)
  {
    forall uid <- rows
      ensures HealRows(rows)[uid].status == if Stale(rows[uid]) then Skipped else rows[uid].status { HealedRow(rows, uid); }
  }

  lemma HealedSkipped(rows: Rows)
    ensures WithStatus(HealRows(rows), Skipped) == WithStatus(rows, Skipped) + StaleRows(rows)
    ensures |WithStatus(rows, Skipped) + StaleRows(rows)| == Tally(rows, Skipped) + |StaleRows(rows)|
  {
    forall uid <- rows
      ensures HealRows(rows)[uid].status == (if Stale(rows[uid]) then Skipped else rows[uid].status)
      ensures Stale(rows[uid]) ==> rows[uid].status != Skipped { HealedRow(rows, uid); }
    assert WithStatus(rows, Skipped) !! StaleRows(rows);
  }

  lemma HealedCount(rows: Rows, status: Status)
    requires status != Skipped
    ensures |WithStatus(rows, status) * StaleRows(rows)| <= Tally(rows, status)
    ensures Tally(HealRows(rows), status) == Tally(rows, status) - |WithStatus(rows, status) * StaleRows(rows)|
  {
    var before, stale := WithStatus(rows, status), StaleRows(rows);
    HealedStatus(rows, status);
    assert before - stale == before - before * stale;
    SplitSize(before, before * stale);
  }

  lemma StaleSplit(rows: Rows)
    ensures WithStatus(rows, Applied) * StaleRows(rows) == {}
    ensures WithStatus(rows, Failed) * StaleRows(rows) == StaleFailed(rows) <= StaleRows(rows)
    ensures WithStatus(rows, Review) * StaleRows(rows) == StaleRows(rows) - StaleFailed(rows)
  {
    forall uid <- StaleRows(rows) ensures rows[uid].status == Failed || rows[uid].status == Review { HealedRow(rows, uid); }
  }

  lemma HealTallies(rows: Rows)
    ensures var f := |StaleFailed(rows)|;
      && f <= |StaleRows(rows)| && f <= Tally(rows, Failed) && |StaleRows(rows)| - f <= Tally(rows, Review)
      && Tally(HealRows(rows), Applied) == Tally(rows, Applied)
      && Tally(HealRows(rows), Skipped) == Tally(rows, Skipped) + |StaleRows(rows)|
      && Tally(HealRows(rows), Failed) == Tally(rows, Failed) - f
      && Tally(HealRows(rows), Review) == Tally(rows, Review) - (|StaleRows(rows)| - f)
  {
    StaleSplit(rows);
    HealedSkipped(rows);
    HealedCount(rows, Applied);
    HealedCount(rows, Failed);
    HealedCount(rows, Review);
    SplitSize(StaleRows(rows), StaleFailed(rows));
  }

  /** The self-heal keeps the counters exactly when no stale row was counted as failed; its lower bound of
      zero is then never reached. */
  lemma HealKeepsCounters(rows: Rows, job: ApplyJob)
    requires CountersAreRows(rows, Some(job))
    ensures CountersAreRows(HealRows(rows), Some(HealJob(rows, job))) <==> StaleFailed(rows) == {}
    ensures StaleFailed(rows) == {} ==> job.review >= |StaleRows(rows)|
  {
    HealTallies(rows);
    if StaleFailed(rows) != {} { assert |StaleFailed(rows)| > 0; }
  }

  // ---------------------------------------------------------------- every step

  lemma DecidedResult(p: Proposal, p': Proposal, edit: Edit)
    requires Decided(p, p', edit)
    ensures p' == p || (!IsResult(p.status) && !IsResult(p'.status))
  {
  }

  lemma DecisionsKeepTally(rows: Rows, rows': Rows, edit: Edit, status: Status)
    requires Decisions(rows, rows', edit) && IsResult(status)
    ensures WithStatus(rows', status) == WithStatus(rows, status)
  {
    forall uid <- rows ensures rows'[uid] == rows[uid] || (!IsResult(rows[uid].status) && !IsResult(rows'[uid].status)) {
      DecidedResult(rows[uid], rows'[uid], edit);
    }
  }

  lemma DecisionsKeepCounters(rows: Rows, rows': Rows, edit: Edit, job: Option<ApplyJob>)
    requires Decisions(rows, rows', edit) && CountersAreRows(rows, job) && StaleFailed(rows) == {}
    ensures CountersAreRows(rows', job) && StaleFailed(rows') == {}
    ensures forall uid <- rows :: IsResult(rows'[uid].status) <==> IsResult(rows[uid].status)
  {
    DecisionsKeepTally(rows, rows', edit, Applied);
    DecisionsKeepTally(rows, rows', edit, Skipped);
    DecisionsKeepTally(rows, rows', edit, Failed);
    DecisionsKeepTally(rows, rows', edit, Review);
    forall uid <- rows ensures rows'[uid] == rows[uid] || (!IsResult(rows[uid].status) && !IsResult(rows'[uid].status)) {
      DecidedResult(rows[uid], rows'[uid], edit);
    }
    forall uid <- rows' ensures uid !in StaleFailed(rows') {
      if uid in rows { assert uid !in StaleFailed(rows); }
    }
  }

  lemma NoResultsNoTally(rows: Rows)
    requires forall uid <- rows :: !IsResult(rows[uid].status)
    ensures Tally(rows, Applied) == Tally(rows, Skipped) == Tally(rows, Failed) == Tally(rows, Review) == 0
  {
    assert WithStatus(rows, Applied) == WithStatus(rows, Skipped) == WithStatus(rows, Failed) == WithStatus(rows, Review) == {};
  }

  lemma MarkKeepsTally(s: System)
    requires TallyInv(s) && s.local.Result? && s.local.item.uid in s.world.rows && s.world.job.Some?
    ensures TallyInv(BatchStep(s, Mark))
  {
    var l, s' := s.local, BatchStep(s, Mark);
    assert Items(l)[0] == l.item;
    MarkCounts(s.world.rows, s.world.job.value, l.item.uid, l.result, l.error);
    forall i | 0 <= i < |l.todo|
      ensures l.todo[i].uid in s'.world.rows && !IsResult(s'.world.rows[l.todo[i].uid].status)
    {
      assert Items(l)[i + 1] == l.todo[i];
    }
    forall i, j | 0 <= i < j < |l.todo| ensures l.todo[i].uid < l.todo[j].uid {
      assert Items(l)[i + 1].uid < Items(l)[j + 1].uid;
    }
  }

  lemma TallyMovesOn(s: System, s': System, dropped: nat)
    requires TallyInv(s) && s'.world.rows == s.world.rows && CountersAreRows(s'.world.rows, s'.world.job)
    requires dropped <= |Items(s.local)| && Items(s'.local) == Items(s.local)[dropped..]
    requires s'.local.Result? ==> IsResult(s'.local.result) && s'.local.error != Some(MissingOrMoved)
    ensures TallyInv(s')
  {
    var items, items' := Items(s.local), Items(s'.local);
    forall i | 0 <= i < |items'| ensures items'[i].uid in s'.world.rows && !IsResult(s'.world.rows[items'[i].uid].status) {
      assert items'[i] == items[i + dropped];
    }
    forall i, j | 0 <= i < j < |items'| ensures items'[i].uid < items'[j].uid {
      assert items[i + dropped].uid < items[j + dropped].uid;
    }
  }

  lemma ReadKeepsTally(s: System, items: seq<Item>)
    requires TallyInv(s)
    ensures TallyInv(BatchStep(s, ReadBatch(items)))
  {
  }

  lemma BatchLeavesRows(s: System, step: Step)
    requires TallyInv(s) && step.ByBatch() && !step.Mark? && !step.ReadBatch?
    ensures var s' := BatchStep(s, step);
      && s'.world.rows == s.world.rows && CountersAreRows(s'.world.rows, s'.world.job)
      && (s'.local.Result? ==> IsResult(s'.local.result) && s'.local.error != Some(MissingOrMoved))
  {
  }

  lemma BatchKeepsTally(s: System, step: Step)
    requires TallyInv(s) && step.ByBatch() && !step.Mark? && !step.ReadBatch?
    ensures TallyInv(BatchStep(s, step))
  {
    var s' := BatchStep(s, step);
    ItemsShrink(s, step);
    BatchLeavesRows(s, step);
    MovedOn(s, s');
  }

  lemma MovedOn(s: System, s': System)
    requires TallyInv(s) && s'.world.rows == s.world.rows && CountersAreRows(s'.world.rows, s'.world.job)
    requires exists k :: 0 <= k <= |Items(s.local)| && Items(s'.local) == Items(s.local)[k..]
    requires s'.local.Result? ==> IsResult(s'.local.result) && s'.local.error != Some(MissingOrMoved)
    ensures TallyInv(s')
  {
    var k :| 0 <= k <= |Items(s.local)| && Items(s'.local) == Items(s.local)[k..];
    TallyMovesOn(s, s', k);
  }

  lemma OthersKeepTally(s: System, step: Step)
    requires TallyInv(s) && !step.ByBatch()
    ensures TallyInv(OthersStep(s, step))
  {
    if step.Decides() {
      DecideDecides(s.world.rows, step);
      DecisionsKeepCounters(s.world.rows, Decide(s.world.rows, step), EditOf(step), s.world.job);
    } else if step.Heal? {
      if s.world.job.Some? { HealKeepsCounters(s.world.rows, s.world.job.value); }
      forall uid <- HealRows(s.world.rows) ensures uid !in StaleFailed(HealRows(s.world.rows)) { }
    } else if step.StartApply? {
      if s.world.job.None? { NoResultsNoTally(s.world.rows); }
    }
  }

  lemma StepKeepsTally(s: System, step: Step)
    requires TallyInv(s)
    ensures TallyInv(Apply(s, step))
  {
    if !step.ByBatch() {
      OthersKeepTally(s, step);
    } else if step.Mark? {
      if BatchStep(s, step) != s { MarkKeepsTally(s); }
    } else if step.ReadBatch? {
      ReadKeepsTally(s, step.items);
    } else {
      BatchKeepsTally(s, step);
    }
  }

  /** In every reachable state the counters are the rows. */
  lemma {:induction false} CountersStayRows(s: System, steps: seq<Step>)
    requires TallyInv(s)
    ensures TallyInv(Exec(s, steps))
    decreases |steps|
  {
    if steps != [] {
      StepKeepsTally(s, steps[0]);
      CountersStayRows(Apply(s, steps[0]), steps[1..]);
    }
  }

  lemma CountersFromStart(mail: Mail, steps: seq<Step>)
    ensures CountersAreRows(Exec(Start(mail), steps).world.rows, Exec(Start(mail), steps).world.job)
  {
    CountersStayRows(Start(mail), steps);
  }

  /** A result is final: only the self-heal ever changes a row that has one. */
  lemma ResultsAreFinal(s: System, step: Step, uid: nat)
    requires TallyInv(s) && uid in s.world.rows && IsResult(s.world.rows[uid].status)
    ensures uid in Apply(s, step).world.rows
    ensures Apply(s, step).world.rows[uid] == (if step.Heal? then HealRows(s.world.rows)[uid] else s.world.rows[uid])
  {
    if step.Decides() {
      DecideLeavesResult(s.world.rows, step, uid);
    } else if step.Mark? {
      MarkLeavesResult(s, uid);
    } else if step.ByBatch() {
      BatchKeepsRows(s, step);
    }
  }

  lemma DecideLeavesResult(rows: Rows, step: Step, uid: nat)
    requires step.Decides() && uid in rows && IsResult(rows[uid].status)
    ensures uid in Decide(rows, step) && Decide(rows, step)[uid] == rows[uid]
  {
    DecideDecides(rows, step);
    DecidedResult(rows[uid], Decide(rows, step)[uid], EditOf(step));
  }

  lemma MarkLeavesResult(s: System, uid: nat)
    requires TallyInv(s) && uid in s.world.rows && IsResult(s.world.rows[uid].status)
    ensures uid in BatchStep(s, Mark).world.rows && BatchStep(s, Mark).world.rows[uid] == s.world.rows[uid]
  {
    if s.local.Result? { assert Items(s.local)[0] == s.local.item; }
  }
}
