/** The frontier invariant of dry-run and review backfill, for every interleaving. */
module BulkBackfillSafety {
  import opened Common
  import opened BackfillStore
  import opened HistoricalFetch
  import opened BulkBackfill

  ghost predicate Marked(w: World, uid: nat) {
    uid in w.proposals || uid in w.failures
  }

  predicate Beyond(w: World, uid: nat) {
    uid in w.mailbox.uids && uid > w.job.Position()
  }

  /** Nothing beyond the cursor has been touched except the least unvisited message. */
  ghost predicate Frontier(w: World) {
    forall u: nat, v: nat :: Beyond(w, u) && Marked(w, u) && Beyond(w, v) ==> u <= v
  }

  /** No message at or before the cursor was lost. */
  ghost predicate Covered(maxAttempts: nat, w: World) {
    forall u <- w.mailbox.uids | u <= w.job.Position() ::
      u in w.proposals || (u in w.failures && w.failures[u].attempts >= maxAttempts)
  }

  /** Only messages the cursor has passed have used up their attempts, and only those are retried by hand. */
  ghost predicate Exhausted(maxAttempts: nat, w: World) {
    && (forall u <- w.failures :: w.failures[u].attempts >= maxAttempts ==> u <= w.job.Position())
    && (forall u <- w.failures :: w.failures[u].status == RetryingRow ==> w.failures[u].attempts >= maxAttempts)
    && (forall u <- w.retrying :: u in w.failures && w.failures[u].attempts >= maxAttempts)
  }

  ghost predicate WorldInv(maxAttempts: nat, w: World) {
    && w.mailbox.Valid() && w.job.Position() < w.mailbox.uidNext
    && Frontier(w) && Covered(maxAttempts, w) && Exhausted(maxAttempts, w)
    && (forall u <- w.proposals :: u < w.mailbox.uidNext) && (forall u <- w.failures :: u < w.mailbox.uidNext)
    && CountersBounded(w.job)
  }

  /** Messages the batch has fetched and not yet dealt with, in order. */
  function Rest(l: Local): seq<nat> {
    match l
    case Fetched(_, messages, _, _) => messages
    case Visiting(_, pending, unseen, _, _) => pending + unseen
    case Committing(_, pending, _, _) => pending
    case _ => []
  }

  /** `rest` holds every message between the cursor and `scan`, and at most its head is touched. */
  ghost predicate Window(w: World, rest: seq<nat>, scan: nat) {
    && Ascending(rest)
    && (forall u <- rest :: w.job.Position() < u <= scan)
    && (forall u: nat :: Beyond(w, u) && u <= scan ==> u in rest)
    && (forall i :: 1 <= i < |rest| ==> rest[i] !in w.proposals)
    && (forall u: nat :: Beyond(w, u) && Marked(w, u) ==> rest != [] && u == rest[0])
    && w.job.Position() <= scan < w.mailbox.uidNext
  }

  ghost predicate LocalInv(w: World, l: Local) {
    match l
    case Idle => true
    case Started(after) => after == w.job.Position()
    case Recovering(after, rows) => after == w.job.Position() && forall u <- rows :: u in w.failures
    case Fetched(_, _, scan, _) => Window(w, Rest(l), scan)
    case Visiting(_, _, _, scan, _) => Window(w, Rest(l), scan)
    case Committing(_, _, scan, _) => Window(w, Rest(l), scan)
    case Finishing(_, reachedEnd, scan, _) => reachedEnd ==> Window(w, [], scan)
    case Raised => false
  }

  ghost predicate Inv(maxAttempts: nat, s: System) {
    WorldInv(maxAttempts, s.world) && LocalInv(s.world, s.local)
  }

  // ---------------------------------------------------------------- moving the cursor

  /** Passing the head of the window, once it is covered, keeps everything. */
  lemma PassHead(maxAttempts: nat, w: World, w': World, rest: seq<nat>, scan: nat)
    requires WorldInv(maxAttempts, w) && rest != [] && Window(w, rest, scan)
    requires w'.mailbox == w.mailbox && w'.retrying == w.retrying && w'.job.Position() == rest[0]
    requires w'.proposals.Keys <= w.proposals.Keys + {rest[0]} && w.proposals.Keys <= w'.proposals.Keys
    requires w'.failures.Keys <= w.failures.Keys + {rest[0]}
    requires forall u <- w.failures | u != rest[0] :: u in w'.failures && w'.failures[u] == w.failures[u]
    requires rest[0] in w'.failures ==> w'.failures[rest[0]].status != RetryingRow
    requires rest[0] in w'.proposals || (rest[0] in w'.failures && w'.failures[rest[0]].attempts >= maxAttempts)
    requires CountersBounded(w'.job)
    ensures WorldInv(maxAttempts, w') && Window(w', rest[1..], scan)
  {
    var head := rest[0];
    assert head in rest;
    forall u | u in rest[1..] ensures head < u <= scan {
      var i :| 0 <= i < |rest| - 1 && rest[1..][i] == u;
      assert rest[i + 1] in rest;
    }
    assert forall u: nat :: Beyond(w', u) ==> Beyond(w, u);
    forall u | u in w'.mailbox.uids && u <= head
      ensures u in w'.proposals || (u in w'.failures && w'.failures[u].attempts >= maxAttempts)
    {
      if w.job.Position() < u {
        assert Beyond(w, u) && u <= scan && u in rest;
      }
    }
    forall u: nat | Beyond(w', u) ensures !Marked(w', u) { assert Beyond(w, u); }
    forall u: nat | Beyond(w', u) && u <= scan ensures u in rest[1..] { assert u in rest && u != head; }
  }

  /** The final jump to the scan position skips nothing when the window is empty. */
  lemma JumpToScan(maxAttempts: nat, w: World, w': World, scan: nat)
    requires WorldInv(maxAttempts, w) && Window(w, [], scan)
    requires w' == w.(job := w'.job) && w'.job.Position() == scan && CountersBounded(w'.job)
    ensures WorldInv(maxAttempts, w')
  {
    assert forall u: nat :: Beyond(w', u) ==> Beyond(w, u);
    forall u | u in w.mailbox.uids && u <= scan ensures u <= w.job.Position() {
      assert !Beyond(w, u);
    }
  }

  lemma RecordKeepsWorld(maxAttempts: nat, w: World, uid: nat, error: Error, scan: nat, rest: seq<nat>)
    requires WorldInv(maxAttempts, w) && rest != [] && uid == rest[0] && Window(w, rest, scan)
    requires RecordFailure(w.failures, uid, error)[uid].attempts < maxAttempts
    ensures WorldInv(maxAttempts, w.(failures := RecordFailure(w.failures, uid, error)))
  {
    var w' := w.(failures := RecordFailure(w.failures, uid, error));
    assert forall u: nat :: Beyond(w', u) <==> Beyond(w, u);
    forall u: nat, v: nat | Beyond(w', u) && Marked(w', u) && Beyond(w', v) ensures u <= v {
      assert u == rest[0] && u in rest;
      if v <= scan { var i :| 0 <= i < |rest| && rest[i] == v; }
    }
    assert forall u <- w.failures | u != uid :: w'.failures[u] == w.failures[u];
    assert uid in rest && w.job.Position() < uid;
  }

  // ---------------------------------------------------------------- batch steps

  lemma VisitKeeps(maxAttempts: nat, w: World, l: Local)
    requires l.Visiting? && l.unseen != [] && WorldInv(maxAttempts, w) && LocalInv(w, l)
    ensures Inv(maxAttempts, VisitNext(w, l))
    ensures w.job.Position() <= VisitNext(w, l).world.job.Position()
  {
    var uid := l.unseen[0];
    var rest := Rest(l);
    if w.job.state == Running && uid in w.proposals {
      assert rest[|l.pending|] == uid;
      assert l.pending == [] && rest == l.unseen;
      assert uid in rest;
      var s' := VisitNext(w, l);
      assert uid in w.failures ==> w.failures[uid].status != RetryingRow;
      PassHead(maxAttempts, w, s'.world, rest, l.scan);
      assert Rest(s'.local) == rest[1..];
    } else if w.job.state == Running {
      assert Rest(VisitNext(w, l).local) == rest;
    }
  }

  lemma CommitKeeps(maxAttempts: nat, w: World, l: Local, outcome: Outcome)
    requires l.Committing? && l.pending != [] && WorldInv(maxAttempts, w) && LocalInv(w, l)
    ensures Inv(maxAttempts, CommitNext(maxAttempts, w, l, outcome))
    ensures w.job.Position() <= CommitNext(maxAttempts, w, l, outcome).world.job.Position()
  {
    var uid := l.pending[0];
    assert uid in l.pending;
    var s' := CommitNext(maxAttempts, w, l, outcome);
    if w.job.state == Running {
      match outcome
      case Transient =>
      case Broken(error) =>
        if RecordFailure(w.failures, uid, error)[uid].attempts < maxAttempts {
          RecordKeepsWorld(maxAttempts, w, uid, error, l.scan, l.pending);
        } else {
          PassHead(maxAttempts, w, s'.world, l.pending, l.scan);
        }
      case Classified(review) =>
        PassHead(maxAttempts, w, s'.world, l.pending, l.scan);
    }
  }

  lemma FinishKeeps(maxAttempts: nat, w: World, l: Local)
    requires l.Finishing? && WorldInv(maxAttempts, w) && LocalInv(w, l)
    ensures Inv(maxAttempts, FinishBatch(w, l))
    ensures w.job.Position() <= FinishBatch(w, l).world.job.Position()
  {
    if w.job.state == Running && l.reachedEnd && l.scan > w.job.Position() {
      JumpToScan(maxAttempts, w, FinishBatch(w, l).world, l.scan);
    } else {
      JobOnlyKeepsWorld(maxAttempts, w, FinishBatch(w, l).world.job);
    }
  }

  lemma RetrySuccessKeepsWorld(maxAttempts: nat, w: World, uid: nat, review: bool)
    requires WorldInv(maxAttempts, w) && uid in w.failures
    ensures WorldInv(maxAttempts, RetrySuccess(w, uid, review))
  {
    var w' := RetrySuccess(w, uid, review);
    assert forall u: nat :: Beyond(w', u) <==> Beyond(w, u);
    assert forall u: nat :: Marked(w', u) ==> Marked(w, u);
  }

  lemma FetchOpensWindow(maxAttempts: nat, w: World, maxCount: nat, messages: seq<nat>, scan: nat)
    requires WorldInv(maxAttempts, w) && maxCount > 0
    requires IsBatch(w.mailbox, w.job.Position(), maxCount, messages, scan)
    ensures Window(w, messages, scan)
  {
    if |messages| == maxCount { assert messages[maxCount - 1] in messages; }
    forall i | 0 <= i < |messages| ensures Beyond(w, messages[i]) { assert messages[i] in messages; }
    forall u: nat | Beyond(w, u) && Marked(w, u) ensures messages != [] && u == messages[0] {
      assert u <= scan ==> u in messages;
      assert messages != [] ==> Beyond(w, messages[0]);
    }
    forall i | 1 <= i < |messages| ensures messages[i] !in w.proposals {
      assert Beyond(w, messages[i]) && Beyond(w, messages[0]);
    }
  }

  lemma BatchStepKeeps(maxAttempts: nat, s: System, step: Step)
    requires Inv(maxAttempts, s) && step.ByBatch()
    ensures Inv(maxAttempts, Apply(maxAttempts, s, step))
    ensures s.world.job.Position() <= Apply(maxAttempts, s, step).world.job.Position()
  {
    var w, l := s.world, s.local;
    match step
    case Visit =>
      if l.Visiting? && l.unseen != [] { VisitKeeps(maxAttempts, w, l); }
      else if l.Visiting? { assert Rest(l) == l.pending; }
    case Commit(outcome) => if l.Committing? && l.pending != [] { CommitKeeps(maxAttempts, w, l, outcome); }
    case Finish => if l.Finishing? { FinishKeeps(maxAttempts, w, l); }
    case Fetch(maxCount, messages, scan) =>
      if l.Recovering? && l.rows == [] && maxCount > 0 && IsBatch(w.mailbox, l.after, maxCount, messages, scan) {
        FetchOpensWindow(maxAttempts, w, maxCount, messages, scan);
      }
    case Recover(recovery) =>
      if l.Recovering? && l.rows != [] {
        assert l.rows[0] in w.failures;
        if recovery.Recovered? { RetrySuccessKeepsWorld(maxAttempts, w, l.rows[0], recovery.review); }
      }
    case Discover(v, total) => DiscoverKeeps(maxAttempts, s, v, total);
    case ListFailures(rows) =>
    case Begin =>
    case Crash =>
  }

  lemma DiscoverKeeps(maxAttempts: nat, s: System, uidvalidity: nat, total: nat)
    requires Inv(maxAttempts, s)
    ensures Inv(maxAttempts, Apply(maxAttempts, s, Discover(uidvalidity, total)))
  {
    if s.local.Fetched? {
      var s' := Apply(maxAttempts, s, Discover(uidvalidity, total));
      JobOnlyKeepsWorld(maxAttempts, s.world, s'.world.job);
      assert [] + s.local.messages == s.local.messages;
    }
  }

  lemma JobOnlyKeepsWorld(maxAttempts: nat, w: World, job: Job)
    requires WorldInv(maxAttempts, w) && job.cursor == w.job.cursor && CountersBounded(job)
    ensures WorldInv(maxAttempts, w.(job := job))
    ensures forall rest: seq<nat>, scan: nat :: Window(w, rest, scan) ==> Window(w.(job := job), rest, scan)
  {
    var w' := w.(job := job);
    assert forall u: nat :: Beyond(w', u) <==> Beyond(w, u);
    assert forall u: nat :: Marked(w', u) <==> Marked(w, u);
  }

  // ---------------------------------------------------------------- everybody else's steps

  /** A job change that keeps the cursor, and rows that keep attempts above the limit, keep the batch's view. */
  lemma WorldStepKeeps(maxAttempts: nat, s: System, step: Step)
    requires Inv(maxAttempts, s) && !step.ByBatch() && maxAttempts > 0
    ensures Inv(maxAttempts, Apply(maxAttempts, s, step))
    ensures s.world.job.Position() == Apply(maxAttempts, s, step).world.job.Position()
  {
    var w, w' := s.world, WorldStep(maxAttempts, s.world, step);
    match step
    case SetState(target) => JobOnlyKeepsWorld(maxAttempts, w, w'.job);
    case Expunge(uid) => MailboxShrinks(maxAttempts, w, uid, s.local);
    case Deliver => MailboxGrows(maxAttempts, w, s.local);
    case _ => RowStepKeeps(maxAttempts, s, step);
  }

  lemma RowStepKeeps(maxAttempts: nat, s: System, step: Step)
    requires Inv(maxAttempts, s) && !step.ByBatch() && maxAttempts > 0
    requires !step.SetState? && !step.Expunge? && !step.Deliver?
    ensures Inv(maxAttempts, System(WorldStep(maxAttempts, s.world, step), s.local))
    ensures s.world.job.Position() == WorldStep(maxAttempts, s.world, step).job.Position()
  {
    RowStepEffect(maxAttempts, s.world, step);
    RetryKeepsView(maxAttempts, s.world, WorldStep(maxAttempts, s.world, step), s.local);
  }

  lemma RowStepEffect(maxAttempts: nat, w: World, step: Step)
    requires WorldInv(maxAttempts, w) && !step.ByBatch() && maxAttempts > 0
    requires !step.SetState? && !step.Expunge? && !step.Deliver?
    ensures var w' := WorldStep(maxAttempts, w, step);
      && w'.mailbox == w.mailbox && w'.job.cursor == w.job.cursor && CountersBounded(w'.job)
      && w'.failures.Keys == w.failures.Keys && w'.proposals.Keys >= w.proposals.Keys
      && (forall u <- w'.proposals :: u in w.proposals || u <= w.job.Position())
      && (forall u <- w.failures :: w'.failures[u].attempts >= w.failures[u].attempts)
      && Exhausted(maxAttempts, w')
  {
  }

  /** Steps that only touch rows and proposals the cursor has already passed. */
  lemma RetryKeepsView(maxAttempts: nat, w: World, w': World, l: Local)
    requires WorldInv(maxAttempts, w) && LocalInv(w, l)
    requires w'.mailbox == w.mailbox && w'.job.Position() == w.job.Position() && CountersBounded(w'.job)
    requires w'.failures.Keys == w.failures.Keys && w'.proposals.Keys >= w.proposals.Keys
    requires forall u <- w'.proposals :: u in w.proposals || u <= w.job.Position()
    requires forall u <- w.failures :: w'.failures[u].attempts >= w.failures[u].attempts
    requires Exhausted(maxAttempts, w')
    ensures WorldInv(maxAttempts, w') && LocalInv(w', l)
  {
    assert forall u: nat :: Beyond(w', u) <==> Beyond(w, u);
    assert forall u: nat :: Beyond(w, u) ==> (Marked(w', u) <==> Marked(w, u));
    forall rest: seq<nat>, scan: nat | Window(w, rest, scan) ensures Window(w', rest, scan) {
      forall i | 1 <= i < |rest| ensures rest[i] !in w'.proposals { assert rest[i] in rest; }
    }
  }

  lemma MailboxShrinks(maxAttempts: nat, w: World, uid: nat, l: Local)
    requires WorldInv(maxAttempts, w) && LocalInv(w, l)
    ensures var w' := WorldStep(maxAttempts, w, Expunge(uid)); WorldInv(maxAttempts, w') && LocalInv(w', l)
  {
    var w' := WorldStep(maxAttempts, w, Expunge(uid));
    assert forall u: nat :: Beyond(w', u) ==> Beyond(w, u);
    assert forall u: nat :: Marked(w', u) <==> Marked(w, u);
  }

  lemma MailboxGrows(maxAttempts: nat, w: World, l: Local)
    requires WorldInv(maxAttempts, w) && LocalInv(w, l)
    ensures var w' := WorldStep(maxAttempts, w, Deliver); WorldInv(maxAttempts, w') && LocalInv(w', l)
  {
    var w' := WorldStep(maxAttempts, w, Deliver);
    var arrived := w.mailbox.uidNext;
    assert !Marked(w, arrived);
    assert forall u: nat :: Beyond(w', u) ==> Beyond(w, u) || u == arrived;
    assert forall u: nat :: Marked(w', u) <==> Marked(w, u);
    assert Frontier(w') && Covered(maxAttempts, w') && Exhausted(maxAttempts, w');
    forall rest: seq<nat>, scan: nat | Window(w, rest, scan) ensures Window(w', rest, scan) { }
  }

  // ---------------------------------------------------------------- whole runs

  lemma StepKeeps(maxAttempts: nat, s: System, step: Step)
    requires Inv(maxAttempts, s) && maxAttempts > 0
    ensures Inv(maxAttempts, Apply(maxAttempts, s, step))
    ensures s.world.job.Position() <= Apply(maxAttempts, s, step).world.job.Position()
  {
    if step.ByBatch() { BatchStepKeeps(maxAttempts, s, step); } else { WorldStepKeeps(maxAttempts, s, step); }
  }

  lemma {:induction false} ExecKeeps(maxAttempts: nat, s: System, steps: seq<Step>)
    requires Inv(maxAttempts, s) && maxAttempts > 0
    ensures Inv(maxAttempts, Exec(maxAttempts, s, steps))
    ensures s.world.job.Position() <= Exec(maxAttempts, s, steps).world.job.Position()
    decreases |steps|
  {
    if steps != [] {
      StepKeeps(maxAttempts, s, steps[0]);
      ExecKeeps(maxAttempts, Apply(maxAttempts, s, steps[0]), steps[1..]);
    }
  }

  lemma {:induction false} ExecConcat(m: nat, s: System, a: seq<Step>, b: seq<Step>)
    ensures Exec(m, s, a + b) == Exec(m, Exec(m, s, a), b)
    decreases |a|
  {
    if a == [] {
      assert a + b == b;
    } else {
      assert (a + b)[1..] == a[1..] + b;
      ExecConcat(m, Apply(m, s, a[0]), a[1..], b);
    }
  }

  /** In every reachable state: no checkpoint was ever refused, no scanned message is lost, only the least
      unvisited message is touched beyond the cursor, and the counters stay bounded; and from there the
      cursor never moves back. */
  lemma FrontierSafety(maxAttempts: nat, mailbox: Mailbox, steps: seq<Step>, later: seq<Step>)
    requires maxAttempts > 0 && mailbox.Valid()
    ensures var s := Exec(maxAttempts, Start(mailbox), steps);
      && !s.local.Raised?
      && Frontier(s.world) && Covered(maxAttempts, s.world) && CountersBounded(s.world.job)
      && s.world.job.Position() <= Exec(maxAttempts, s, later).world.job.Position()
  {
    ExecKeeps(maxAttempts, Start(mailbox), steps);
    ExecKeeps(maxAttempts, Exec(maxAttempts, Start(mailbox), steps), later);
  }

  /** Why the bound is not an equality: a failure recovered before it ever counted is counted once by the
      recovery and again when the batch visits its message, processed once and successful twice. */
  lemma RecoveredThenVisited(w: World, uid: nat, review: bool)
    requires w.job.state == Running && CountersExact(w.job) && w.job.failed == 0
    requires uid in w.failures && uid !in w.proposals && uid > w.job.Position()
    ensures var (visited, flow) := VisitOne(RetrySuccess(w, uid, review), uid);
      && flow == GoOn && visited.job.cursor == Some(uid)
      && visited.job.processed == w.job.processed + 1 && visited.job.successful == w.job.successful + 2
      && visited.job.reviewRequired == w.job.reviewRequired + (if review then 2 else 0)
      && !CountersExact(visited.job)
  {
    var recovered := RetrySuccess(w, uid, review);
    assert recovered.proposals[uid] == review;
  }
}
