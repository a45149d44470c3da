/** Bulk apply terminates: an uninterrupted chain of batches completes the job after exactly as many batches as
    the queue fills, however many provider calls fail. */
module BulkApplyTermination {
  import opened Common
  import opened BulkRows
  import opened BulkApply
  import opened BulkApplySafety
  import opened BulkApplyPass

  function One(b: bool): nat { if b then 1 else 0 }

  // ---------------------------------------------------------------- how many batches are left

  function Batches(n: nat, size: nat): nat
    requires size > 0
  {
    if n == 0 then 0 else if n <= size then 1 else Batches(n - size, size) + 1
  }

  /** The quotient rounded up. */
  lemma {:induction false} BatchesIsCeiling(n: nat, size: nat)
    requires size > 0
    ensures n <= Batches(n, size) * size < n + size
    decreases n
  {
    if n > size {
      BatchesIsCeiling(n - size, size);
      var b := Batches(n - size, size);
      assert (b + 1) * size == b * size + size;
    }
  }

  /** A chain of batches that was never paused. */
  ghost predicate ChainInv(s: System) {
    && s.world.job.Some? && s.world.job.value.batchSize > 0
    && Held(s.world.rows, Items(s.local))
    && (s.local.Result? ==> IsResult(s.local.result))
    && (s.local.Acting? ==> |s.local.left| <= 6)
    && (s.world.job.value.state == Running
        || (s.world.job.value.state == Completed && s.local.Idle? && Queue(s.world.rows) == {}))
  }

  function Unread(s: System): set<nat> { Queue(s.world.rows) - Uids(Items(s.local)) }

  /** An idle running job with an empty queue still reads one empty batch. */
  ghost function BatchesLeft(s: System): nat
    requires ChainInv(s)
  {
    if s.local.Idle? && s.world.job.value.state == Running && Queue(s.world.rows) == {} then 1
    else Batches(|Unread(s)|, s.world.job.value.batchSize)
  }

  predicate InHand(l: Local) { l.Fetching? || l.Acting? || l.Result? }

  function Cost(l: Local): nat {
    match l
    case Idle => 0
    case Batch(_) => 1
    case Fetching(_, _, _) => 11
    case Acting(_, _, _, left, _) => 3 + |left|
    case Result(_, _, _, _) => 2
  }

  /** Bounds the number of steps still to come. */
  ghost function Work(s: System): int
    requires ChainInv(s)
  {
    2 * BatchesLeft(s) + 11 * (|Queue(s.world.rows)| - One(InHand(s.local))) + Cost(s.local)
  }

  // ---------------------------------------------------------------- one step

  lemma {:induction false} UidsSize(items: seq<Item>)
    requires Ascending(items)
    ensures |Uids(items)| == |items|
    decreases |items|
  {
    if items != [] {
      UidsTail(items);
      forall i, j | 0 <= i < j < |items[1..]| ensures items[1..][i].uid < items[1..][j].uid {
        assert items[1..][i] == items[i + 1] && items[1..][j] == items[j + 1];
      }
      UidsSize(items[1..]);
      forall uid <- Uids(items[1..]) ensures uid != items[0].uid {
        var i :| 0 <= i < |items[1..]| && items[1..][i].uid == uid;
        assert items[0].uid < items[i + 1].uid;
      }
    }
  }

  lemma NextIsHeld(rows: Rows, size: nat, items: seq<Item>)
    requires IsNextBatch(rows, size, items)
    ensures Held(rows, items)
  {
  }

  lemma WithoutSubset(all: set<nat>, part: set<nat>)
    requires part <= all
    ensures |all - part| == |all| - |part|
  {
    assert all == (all - part) + part;
  }

  lemma NextFromQueue(rows: Rows, size: nat, items: seq<Item>)
    requires IsNextBatch(rows, size, items)
    ensures Uids(items) <= Queue(rows) && |Uids(items)| == |items|
    ensures |items| < size ==> Uids(items) == Queue(rows)
  {
    UidsSize(items);
    forall uid <- Uids(items) ensures uid in Queue(rows) {
      var i :| 0 <= i < |items| && items[i].uid == uid;
    }
    if |items| < size {
      forall uid <- Queue(rows) ensures uid in Uids(items) { assert rows[uid].Queued(); }
    }
  }

  lemma ReadSizes(rows: Rows, size: nat, items: seq<Item>)
    requires size > 0 && IsNextBatch(rows, size, items)
    ensures |Queue(rows) - Uids(items)| == |Queue(rows)| - |items|
    ensures |items| == if |Queue(rows)| <= size then |Queue(rows)| else size
  {
    NextFromQueue(rows, size, items);
    WithoutSubset(Queue(rows), Uids(items));
  }

  lemma ReadReads(s: System, items: seq<Item>)
    requires BatchStep(s, ReadBatch(items)) != s
    ensures s.local.Idle? && s.world.job.Some? && s.world.job.value.state == Running
    ensures IsNextBatch(s.world.rows, s.world.job.value.batchSize, items)
    ensures BatchStep(s, ReadBatch(items)) == s.(local := Batch(items))
  {
  }

  lemma ReadWorks(s: System, items: seq<Item>)
    requires ChainInv(s) && BatchStep(s, ReadBatch(items)) != s
    ensures var s' := BatchStep(s, ReadBatch(items));
      ChainInv(s') && BatchesLeft(s) == BatchesLeft(s') + 1 && Work(s') < Work(s)
  {
    ReadReads(s, items);
    ReadOpens(s, items);
  }

  lemma ReadOpens(s: System, items: seq<Item>)
    requires ChainInv(s) && s.local.Idle? && s.world.job.value.state == Running
    requires IsNextBatch(s.world.rows, s.world.job.value.batchSize, items)
    ensures var s' := s.(local := Batch(items));
      ChainInv(s') && BatchesLeft(s) == BatchesLeft(s') + 1 && Work(s') < Work(s)
  {
    var s' := s.(local := Batch(items));
    NextIsHeld(s.world.rows, s.world.job.value.batchSize, items);
    assert ChainInv(s');
    ReadBatchesLeft(s, items);
  }

  lemma ReadBatchesLeft(s: System, items: seq<Item>)
    requires ChainInv(s) && ChainInv(s.(local := Batch(items))) && s.local.Idle? && s.world.job.value.state == Running
    requires IsNextBatch(s.world.rows, s.world.job.value.batchSize, items)
    ensures BatchesLeft(s) == BatchesLeft(s.(local := Batch(items))) + 1
  {
    var queue, size := Queue(s.world.rows), s.world.job.value.batchSize;
    ReadSizes(s.world.rows, size, items);
    LeftWhenIdle(s);
    LeftWhenOpen(s.(local := Batch(items)));
    OneBatchFewer(|queue|, |items|, size);
    assert queue == {} <==> |queue| == 0;
  }

  lemma LeftWhenIdle(s: System)
    requires ChainInv(s) && s.local.Idle? && s.world.job.value.state == Running
    ensures BatchesLeft(s)
         == if Queue(s.world.rows) == {} then 1 else Batches(|Queue(s.world.rows)|, s.world.job.value.batchSize)
  {
    assert Unread(s) == Queue(s.world.rows);
  }

  lemma LeftWhenOpen(s: System)
    requires ChainInv(s) && s.local.Batch?
    ensures BatchesLeft(s)
         == Batches(|Queue(s.world.rows) - Uids(s.local.todo)|, s.world.job.value.batchSize)
  {
  }

  lemma OneBatchFewer(n: nat, k: nat, size: nat)
    requires size > 0 && k == if n <= size then n else size
    ensures n > 0 ==> Batches(n, size) == Batches(n - k, size) + 1
  {
  }

  /** Inside a batch only the message in hand changes. */
  lemma InsideWorks(s: System, s': System)
    requires ChainInv(s) && s'.world.rows == s.world.rows && s'.world.job == s.world.job
    requires !s.local.Idle? && !s'.local.Idle? && Items(s'.local) == Items(s.local)
    requires s'.local.Result? ==> IsResult(s'.local.result)
    requires s'.local.Acting? ==> |s'.local.left| <= 6
    requires Cost(s'.local) + 11 * One(InHand(s.local)) < Cost(s.local) + 11 * One(InHand(s'.local))
    ensures ChainInv(s') && BatchesLeft(s') == BatchesLeft(s) && Work(s') < Work(s)
  {
  }

  lemma TakeWorks(s: System)
    requires ChainInv(s) && BatchStep(s, Take) != s
    ensures var s' := BatchStep(s, Take); ChainInv(s') && BatchesLeft(s') == BatchesLeft(s) && Work(s') < Work(s)
  {
    assert [s.local.todo[0]] + s.local.todo[1..] == s.local.todo;
    InsideWorks(s, BatchStep(s, Take));
  }

  lemma HandWorks(s: System, step: Step)
    requires ChainInv(s) && (step.Fetch? || step.Send? || step.ProviderFails?) && BatchStep(s, step) != s
    ensures var s' := BatchStep(s, step); ChainInv(s') && BatchesLeft(s') == BatchesLeft(s) && Work(s') < Work(s)
  {
    assert Items(BatchStep(s, step).local) == Items(s.local);
    InsideWorks(s, BatchStep(s, step));
  }

  lemma MarkUnread(rows: Rows, items: seq<Item>, result: Status, error: Option<Reason>)
    requires Held(rows, items) && items != [] && IsResult(result)
    ensures items[0].uid in Queue(rows)
    ensures |Queue(MarkRow(rows, items[0].uid, result, error))| == |Queue(rows)| - 1
    ensures Queue(MarkRow(rows, items[0].uid, result, error)) - Uids(items[1..]) == Queue(rows) - Uids(items)
  {
    MarkShrinks(rows, items[0].uid, result, error);
    UidsTail(items);
  }

  lemma MarkWorks(s: System)
    requires ChainInv(s) && s.local.Result? && s.local.item.uid in s.world.rows
    ensures var s' := BatchStep(s, Mark); ChainInv(s') && BatchesLeft(s') == BatchesLeft(s) && Work(s') < Work(s)
  {
    var l, rows := s.local, s.world.rows;
    assert Items(l)[0] == l.item && Items(l)[1..] == l.todo;
    TailHeld(rows, Items(l), l.result, l.error);
    MarkUnread(rows, Items(l), l.result, l.error);
  }

  lemma CloseWorks(s: System)
    requires ChainInv(s) && BatchStep(s, Close) != s
    ensures var s' := BatchStep(s, Close); ChainInv(s') && BatchesLeft(s') == BatchesLeft(s) && Work(s') < Work(s)
    ensures BatchStep(s, Close).world.job.value.state == Completed <==> Queue(s.world.rows) == {}
  {
    assert Unread(BatchStep(s, Close)) == Unread(s) == Queue(s.world.rows);
  }

  /** Steps of the batch that are not crashes; provider calls may fail. */
  predicate Uninterrupted(step: Step) { step.ByBatch() && !step.Crash? }

  lemma StepWorks(s: System, step: Step)
    requires ChainInv(s) && Uninterrupted(step) && BatchStep(s, step) != s
    ensures var s' := BatchStep(s, step);
      ChainInv(s') && BatchesLeft(s) == BatchesLeft(s') + One(step.ReadBatch?) && Work(s') < Work(s)
  {
    match step
    case ReadBatch(items) => ReadWorks(s, items);
    case Take => TakeWorks(s);
    case Mark => MarkWorks(s);
    case Close => CloseWorks(s);
    case _ => HandWorks(s, step);
  }

  // ---------------------------------------------------------------- the next batch exists

  ghost function NextItems(rows: Rows, queue: set<nat>, size: nat): seq<Item>
    requires queue <= rows.Keys
    decreases size
  {
    if size == 0 || queue == {} then []
    else [Item(Least(queue), rows[Least(queue)])] + NextItems(rows, queue - {Least(queue)}, size - 1)
  }

  /** The first `size` members of `queue`. */
  ghost predicate FirstOf(rows: Rows, queue: set<nat>, size: nat, items: seq<Item>) {
    && Ascending(items) && |items| <= size
    && (forall i :: 0 <= i < |items| ==>
          items[i].uid in queue && items[i].uid in rows && items[i].proposal == rows[items[i].uid])
    && (forall uid <- queue | uid !in Uids(items) :: |items| == size && forall i :: 0 <= i < |items| ==> items[i].uid < uid)
  }

  lemma {:induction false} NextItemsAreFirst(rows: Rows, queue: set<nat>, size: nat)
    requires queue <= rows.Keys
    ensures FirstOf(rows, queue, size, NextItems(rows, queue, size))
    decreases size
  {
    if size != 0 && queue != {} {
      var head := Least(queue);
      var rest := NextItems(rows, queue - {head}, size - 1);
      NextItemsAreFirst(rows, queue - {head}, size - 1);
      FirstExtends(rows, queue, size, head, rest);
    }
  }

  lemma FirstExtends(rows: Rows, queue: set<nat>, size: nat, head: nat, rest: seq<Item>)
    requires size > 0 && IsLeast(head, queue) && head in rows && FirstOf(rows, queue - {head}, size - 1, rest)
    ensures FirstOf(rows, queue, size, [Item(head, rows[head])] + rest)
  {
    var items := [Item(head, rows[head])] + rest;
    assert items[1..] == rest;
    UidsTail(items);
    forall i | 0 < i < |items| ensures head < items[i].uid && items[i] == rest[i - 1] {
      assert rest[i - 1].uid in queue - {head};
    }
    forall uid <- queue | uid !in Uids(items)
      ensures |items| == size && forall i :: 0 <= i < |items| ==> items[i].uid < uid
    {
      assert uid in queue - {head} && uid !in Uids(rest);
    }
  }

  lemma NextBatchExists(rows: Rows, size: nat)
    ensures exists items :: IsNextBatch(rows, size, items)
  {
    var items := NextItems(rows, Queue(rows), size);
    NextItemsAreFirst(rows, Queue(rows), size);
    assert IsNextBatch(rows, size, items);
  }

  /** Until the job is completed and the worker idle, some step can be taken. */
  lemma CanMove(s: System)
    requires ChainInv(s) && !(s.local.Idle? && s.world.job.value.state == Completed)
    ensures exists step :: Uninterrupted(step) && Apply(s, step) != s
  {
    match s.local
    case Idle =>
      NextBatchExists(s.world.rows, s.world.job.value.batchSize);
      var items :| IsNextBatch(s.world.rows, s.world.job.value.batchSize, items);
      assert Uninterrupted(ReadBatch(items)) && Apply(s, ReadBatch(items)) != s;
    case Batch(todo) =>
      var step := if todo == [] then Close else Take;
      assert Uninterrupted(step) && Apply(s, step).local != s.local;
    case Fetching(_, _, _) => assert Uninterrupted(Fetch) && Apply(s, Fetch).local != s.local;
    case Acting(_, _, _, _, _) => assert Uninterrupted(Send) && Apply(s, Send).local != s.local;
    case Result(item, _, _, _) =>
      assert Items(s.local)[0] == item;
      assert Uninterrupted(Mark) && Apply(s, Mark).local != s.local;
  }

  // ---------------------------------------------------------------- whole chains

  /** Every step is the batch's and changes something. */
  ghost predicate Effective(s: System, steps: seq<Step>)
    decreases |steps|
  {
    steps == []
    || (Uninterrupted(steps[0]) && Apply(s, steps[0]) != s && Effective(Apply(s, steps[0]), steps[1..]))
  }

  function Reads(steps: seq<Step>): nat {
    if steps == [] then 0 else One(steps[0].ReadBatch?) + Reads(steps[1..])
  }

  lemma {:induction false} ChainWorks(s: System, steps: seq<Step>)
    requires ChainInv(s) && Effective(s, steps)
    ensures ChainInv(Exec(s, steps)) && Reads(steps) + BatchesLeft(Exec(s, steps)) == BatchesLeft(s)
    ensures |steps| + Work(Exec(s, steps)) <= Work(s)
    decreases |steps|
  {
    if steps != [] {
      StepWorks(s, steps[0]);
      ChainWorks(Apply(s, steps[0]), steps[1..]);
    }
  }

  lemma WorkNonNegative(s: System)
    requires ChainInv(s)
    ensures Work(s) >= 0
  {
    if InHand(s.local) {
      assert Items(s.local)[0] == s.local.item;
      assert s.local.item.uid in Queue(s.world.rows);
    }
  }

  /** From an idle running job every chain of effective steps is bounded; when no step is possible any more the
      job is completed with nothing queued, after one batch per `batchSize` queued proposals, rounded up. */
  lemma ChainTerminates(s: System, steps: seq<Step>)
    requires s.local.Idle? && s.world.job.Some? && s.world.job.value.state == Running && s.world.job.value.batchSize > 0
    requires Effective(s, steps)
    ensures var end, n, size := Exec(s, steps), |Queue(s.world.rows)|, s.world.job.value.batchSize;
      && |steps| <= 2 * (Batches(n, size) + 1) + 11 * n
      && ((forall step :: Uninterrupted(step) ==> Apply(end, step) == end) ==>
            && end.world.job.Some? && end.world.job.value.state == Completed
            && Queue(end.world.rows) == {} && Reads(steps) == if n == 0 then 1 else Batches(n, size))
  {
    var end := Exec(s, steps);
    ChainWorks(s, steps);
    WorkNonNegative(end);
    if forall step :: Uninterrupted(step) ==> Apply(end, step) == end {
      if !(end.local.Idle? && end.world.job.value.state == Completed) { CanMove(end); }
    }
  }

  /** In a chain the job is completed exactly when the idle worker has nothing left to read. */
  lemma CompletedIffEmpty(s: System, steps: seq<Step>)
    requires ChainInv(s) && Effective(s, steps + [Close])
    ensures var end := Exec(s, steps + [Close]);
      && end.local.Idle? && end.world.job.Some?
      && (end.world.job.value.state == Completed <==> Queue(end.world.rows) == {})
  {
    EffectivePrefix(s, steps, Close);
    ChainWorks(s, steps);
    LastStep(s, steps, Close);
    ClosedIffEmpty(Exec(s, steps));
  }

  lemma LastStep(s: System, steps: seq<Step>, last: Step)
    ensures Exec(s, steps + [last]) == Apply(Exec(s, steps), last)
  {
    ExecConcat(s, steps, [last]);
    assert Exec(Apply(Exec(s, steps), last), []) == Apply(Exec(s, steps), last);
  }

  lemma ClosedIffEmpty(s: System)
    requires ChainInv(s) && Apply(s, Close) != s
    ensures var end := Apply(s, Close);
      && end.local.Idle? && end.world.job.Some?
      && (end.world.job.value.state == Completed <==> Queue(end.world.rows) == {})
  {
    CloseCloses(s);
  }

  /** Only a running batch with nothing left closes. */
  lemma CloseCloses(s: System)
    requires ChainInv(s) && BatchStep(s, Close) != s
    ensures BatchStep(s, Close).local.Idle? && BatchStep(s, Close).world.rows == s.world.rows
    ensures s.world.job.value.state == Running
    ensures BatchStep(s, Close).world.job == Some(Finalize(s.world.rows, s.world.job.value))
  {
  }

  lemma {:induction false} EffectivePrefix(s: System, steps: seq<Step>, last: Step)
    requires Effective(s, steps + [last])
    ensures Effective(s, steps) && Apply(Exec(s, steps), last) != Exec(s, steps)
    decreases |steps|
  {
    if steps == [] {
      assert (steps + [last])[0] == last;
    } else {
      assert (steps + [last])[0] == steps[0] && (steps + [last])[1..] == steps[1..] + [last];
      EffectivePrefix(Apply(s, steps[0]), steps[1..], last);
    }
  }

  lemma EmptyIsNext(rows: Rows, size: nat)
    requires Queue(rows) == {}
    ensures IsNextBatch(rows, size, [])
  {
    forall u <- rows ensures !rows[u].Queued() { assert u !in Queue(rows); }
  }

  lemma QueuesOne(s: System, uid: nat)
    requires Queue(s.world.rows) == {} && uid in s.world.rows && ApproveRow(s.world.rows[uid]).Some?
    ensures var s' := Apply(s, ApproveOne(uid));
      && s'.local == s.local && s'.world.job == s.world.job && Queue(s'.world.rows) == {uid}
  {
    var approved := s.world.rows[uid := ApproveRow(s.world.rows[uid]).value];
    forall u <- s.world.rows ensures !s.world.rows[u].Queued() { assert u !in Queue(s.world.rows); }
    assert Queue(approved) == {uid};
    assert Apply(s, ApproveOne(uid)).world.rows == approved;
  }

  /** An approval that lands while an empty batch is open leaves the job running with work queued and, the batch
      having read nothing, no further batch asked for. */
  lemma LateApprovalWaits(s: System, uid: nat)
    requires s.local.Idle? && s.world.job.Some? && s.world.job.value.state == Running && s.world.job.value.batchSize > 0
    requires Queue(s.world.rows) == {} && uid in s.world.rows && ApproveRow(s.world.rows[uid]).Some?
    ensures var end := Exec(s, [ReadBatch([]), ApproveOne(uid), Close]);
      && end.local.Idle? && end.world.job.Some? && end.world.job.value.state == Running && Queue(end.world.rows) == {uid}
  {
    var read := Apply(s, ReadBatch([]));
    EmptyIsNext(s.world.rows, s.world.job.value.batchSize);
    QueuesOne(read, uid);
    var approved := Apply(read, ApproveOne(uid));
    var steps := [ReadBatch([]), ApproveOne(uid), Close];
    assert steps[1..] == [ApproveOne(uid), Close] && steps[1..][1..] == [Close] && [Close][1..] == [];
    assert Exec(approved, [Close]) == Exec(Apply(approved, Close), []);
  }

  /** Nothing reopens a completed job, and a row approved after it only waits. */
  lemma CompletedStep(s: System, step: Step, uid: nat)
    requires s.local.Idle? && s.world.job.Some? && s.world.job.value.state == Completed
    ensures var s' := Apply(s, step);
      && s'.local.Idle? && s'.world.job.Some? && s'.world.job.value.state == Completed && s'.trace == s.trace
      && (uid in s.world.rows && s.world.rows[uid].status == Approved && step != Exclude(uid) ==>
            uid in s'.world.rows && s'.world.rows[uid] == s.world.rows[uid])
  {
  }

  /** A completed job stays completed and sends no further command whatever happens, so a message approved too
      late, and not excluded again, stays approved and is never applied. */
  lemma {:induction false} LateApprovalNeverApplied(s: System, steps: seq<Step>, uid: nat)
    requires s.local.Idle? && s.world.job.Some? && s.world.job.value.state == Completed
    ensures var end := Exec(s, steps);
      && end.world.job.Some? && end.world.job.value.state == Completed && end.trace == s.trace
      && (uid in s.world.rows && s.world.rows[uid].status == Approved && Exclude(uid) !in steps ==>
            uid in end.world.rows && end.world.rows[uid] == s.world.rows[uid])
    decreases |steps|
  {
    if steps != [] {
      CompletedStep(s, steps[0], uid);
      LateApprovalNeverApplied(Apply(s, steps[0]), steps[1..], uid);
    }
  }
}
