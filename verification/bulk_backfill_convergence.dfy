/** Backfill refines a simple specification: with a fixed mailbox and a deterministic classifier, every
    chain of batches ends with the same rows, whatever the batch sizes and wherever batches crash. */
module BulkBackfillConvergence {
  import opened Common
  import opened BackfillStore
  import opened HistoricalFetch
  import opened BulkBackfill
  import opened BulkBackfillSafety

  /** Review flag of each UID that classifies; every other UID fails with a persistent error. */
  type Classifier = map<nat, bool>

  function OutcomeOf(c: Classifier, uid: nat): Outcome {
    if uid in c then Classified(c[uid]) else Broken(Error(false))
  }

  /** What the run is about: attempt limit, classifier, mailbox and its UIDVALIDITY. */
  datatype Setting = Setting(maxAttempts: nat, classifier: Classifier, mailbox: Mailbox, uidvalidity: nat) {
    ghost predicate Valid() {
      maxAttempts > 0 && mailbox.Valid()
    }
  }

  /** The next step of the batch in flight, or a crash of it. Batch sizes are free at every fetch. */
  ghost predicate Scheduled(k: Setting, s: System, step: Step) {
    var w, l := s.world, s.local;
    match step
    case Begin => l.Idle? && w.job.state == Running
    case ListFailures(rows) => l.Started? && RecoverableList(w, rows)
    case Fetch(maxCount, messages, scan) =>
      l.Recovering? && l.rows == [] && maxCount > 0 && IsBatch(w.mailbox, l.after, maxCount, messages, scan)
    case Discover(uidvalidity, total) => l.Fetched? && uidvalidity == k.uidvalidity
    case Visit => l.Visiting?
    case Commit(outcome) => l.Committing? && (l.pending != [] ==> outcome == OutcomeOf(k.classifier, l.pending[0]))
    case Finish => l.Finishing?
    case Crash => !l.Idle?
    case _ => false
  }

  ghost predicate AllScheduled(k: Setting, s: System, steps: seq<Step>)
    decreases |steps|
  {
    steps != [] ==>
      Scheduled(k, s, steps[0]) && AllScheduled(k, Apply(k.maxAttempts, s, steps[0]), steps[1..])
  }

  // ---------------------------------------------------------------- the specification

  function Passed(w: World): set<nat> {
    set u | u in w.mailbox.uids && u <= w.job.Position()
  }

  function Good(c: Classifier, uids: set<nat>): set<nat> {
    set u | u in uids && u in c
  }

  function NeedsReview(c: Classifier, uids: set<nat>): set<nat> {
    set u | u in uids && u in c && c[u]
  }

  /** Counters of a job that has dealt with exactly `uids`. */
  predicate Counted(c: Classifier, job: Job, uids: set<nat>) {
    && job.processed == |uids| && job.successful == |Good(c, uids)|
    && job.failed == |uids| - |Good(c, uids)| && job.reviewRequired == |NeedsReview(c, uids)|
  }

  /** Proposals for exactly the good messages, exhausted failures for exactly the bad ones. */
  ghost predicate Finished(k: Setting, w: World) {
    var uids := k.mailbox.uids;
    && w.job.state == Completed
    && w.proposals.Keys == Good(k.classifier, uids)
    && (forall u <- w.proposals :: w.proposals[u] == k.classifier[u])
    && w.failures.Keys == uids - Good(k.classifier, uids)
    && (forall u <- w.failures :: w.failures[u].attempts == k.maxAttempts && w.failures[u].status == FailedRow)
    && Counted(k.classifier, w.job, uids)
  }

  // ---------------------------------------------------------------- invariant

  ghost predicate Rows(k: Setting, w: World) {
    && (forall u <- w.proposals ::
          u in w.mailbox.uids && u in k.classifier && u <= w.job.Position() && w.proposals[u] == k.classifier[u])
    && (forall u <- w.failures ::
          && u in w.mailbox.uids && u !in k.classifier && w.failures[u].status == FailedRow
          && w.failures[u].lastError == Some(Error(false)) && 1 <= w.failures[u].attempts <= k.maxAttempts)
  }

  ghost predicate Place(w: World, l: Local) {
    && (forall u <- Rest(l) :: u in w.mailbox.uids)
    && (l.Recovering? ==> l.rows == [])
    && (l.Fetched? || l.Visiting? || l.Committing? || l.Finishing? ==>
          l.done == (l.scan + 1 >= w.mailbox.uidNext) && l.after <= w.job.Position())
    && (l.Fetched? || l.Visiting? || l.Committing? || (l.Finishing? && l.reachedEnd) ==>
          (Rest(l) == [] && l.after == w.job.Position() ==> l.done))
  }

  ghost predicate Facts(k: Setting, s: System) {
    var w := s.world;
    && Place(w, s.local) && Rows(k, w)
    && w.mailbox == k.mailbox && w.retrying == {}
    && (w.job.uidvalidity == None || w.job.uidvalidity == Some(k.uidvalidity))
    && Counted(k.classifier, w.job, Passed(w))
    && (w.job.state == Running || (w.job.state == Completed && s.local.Idle? && w.job.Position() + 1 >= w.mailbox.uidNext))
  }

  ghost predicate Det(k: Setting, s: System) {
    Inv(k.maxAttempts, s) && Facts(k, s)
  }

  lemma CountedPlus(c: Classifier, job: Job, job': Job, uids: set<nat>, uid: nat)
    requires Counted(c, job, uids) && uid !in uids
    requires job'.processed == job.processed + 1
    requires job'.successful == job.successful + (if uid in c then 1 else 0)
    requires job'.failed == job.failed + (if uid in c then 0 else 1)
    requires job'.reviewRequired == job.reviewRequired + (if uid in c && c[uid] then 1 else 0)
    ensures Counted(c, job', uids + {uid})
  {
    var all := uids + {uid};
    assert Good(c, all) == Good(c, uids) + (if uid in c then {uid} else {});
    assert NeedsReview(c, all) == NeedsReview(c, uids) + (if uid in c && c[uid] then {uid} else {});
  }

  lemma PassedHead(w: World, w': World, rest: seq<nat>, scan: nat)
    requires rest != [] && Window(w, rest, scan) && rest[0] in w.mailbox.uids
    requires w'.mailbox == w.mailbox && w'.job.Position() == rest[0]
    ensures Passed(w') == Passed(w) + {rest[0]} && rest[0] !in Passed(w)
  {
    assert rest[0] in rest;
    forall u | u in Passed(w') ensures u in Passed(w) + {rest[0]} {
      if u > w.job.Position() {
        assert Beyond(w, u) && u in rest;
        var i :| 0 <= i < |rest| && rest[i] == u;
      }
    }
  }

  lemma PassingKeepsFacts(k: Setting, w: World, w': World, l: Local, l': Local)
    requires l.Committing? && l.pending != [] && Window(w, l.pending, l.scan) && Facts(k, System(w, l))
    requires w.job.state == Running && l' == Committing(l.after, l.pending[1..], l.scan, l.done)
    requires w'.mailbox == w.mailbox && w'.retrying == w.retrying && Rows(k, w')
    requires var uid := l.pending[0]; var c := k.classifier;
      Some(w'.job) == if uid in c then Checkpoint(w.job, uid, OneSuccessful(c[uid]), None)
                      else Checkpoint(w.job, uid, ONE_FAILED, Some(Error(false)))
    ensures Facts(k, System(w', l'))
  {
    var uid := l.pending[0];
    assert uid in l.pending && uid in Rest(l);
    PassedHead(w, w', l.pending, l.scan);
    CountedPlus(k.classifier, w.job, w'.job, Passed(w), uid);
  }

  /** One commit on a message beyond the cursor. */
  lemma CommitKeepsRows(k: Setting, w: World, uid: nat)
    requires Rows(k, w) && uid in w.mailbox.uids && w.job.Position() < uid && uid !in w.proposals
    requires uid in k.classifier ==> uid !in w.failures
    requires uid in w.failures ==> w.failures[uid].attempts < k.maxAttempts
    requires k.maxAttempts > 0
    ensures Rows(k, CommitOne(k.maxAttempts, w, uid, OutcomeOf(k.classifier, uid)).0)
  {
  }

  lemma CommitKeepsFacts(k: Setting, s: System, step: Step)
    requires k.Valid() && Det(k, s) && Scheduled(k, s, step) && step.Commit?
    requires s.local.pending != []
    ensures Facts(k, Apply(k.maxAttempts, s, step))
  {
    var w, l := s.world, s.local;
    var uid := l.pending[0];
    var s' := Apply(k.maxAttempts, s, step);
    assert uid in l.pending && uid in Rest(l);
    assert uid !in w.proposals;
    assert uid in k.classifier ==> uid !in w.failures;
    CommitKeepsRows(k, w, uid);
    if s'.local.Committing? { PassingKeepsFacts(k, w, s'.world, l, s'.local); }
  }

  lemma NothingPassedByJump(w: World, w': World, scan: nat)
    requires Window(w, [], scan) && w'.mailbox == w.mailbox && w'.job.Position() == scan
    ensures Passed(w') == Passed(w)
  {
    forall u | u in Passed(w') ensures u in Passed(w) { assert !Beyond(w, u); }
  }

  lemma HeadIsMember(rows: seq<nat>)
    requires rows != []
    ensures rows[0] in rows
  {
  }

  lemma StepIsDet(k: Setting, s: System, step: Step)
    requires k.Valid() && Det(k, s) && Scheduled(k, s, step)
    ensures Det(k, Apply(k.maxAttempts, s, step))
  {
    StepKeeps(k.maxAttempts, s, step);
    StepKeepsFacts(k, s, step);
  }

  lemma ListKeepsFacts(k: Setting, s: System, rows: seq<nat>)
    requires Det(k, s) && Scheduled(k, s, ListFailures(rows))
    ensures Facts(k, Apply(k.maxAttempts, s, ListFailures(rows)))
  {
    if rows != [] { HeadIsMember(rows); }
  }

  lemma VisitKeepsFacts(k: Setting, s: System)
    requires Det(k, s) && Scheduled(k, s, Visit)
    ensures Facts(k, Apply(k.maxAttempts, s, Visit))
  {
    var l := s.local;
    if l.unseen == [] {
      assert Rest(l) == l.pending;
    } else {
      assert Rest(l)[|l.pending|] == l.unseen[0] && l.unseen[0] in Rest(l);
      assert l.pending + [l.unseen[0]] + l.unseen[1..] == Rest(l);
    }
  }

  lemma FinishKeepsFacts(k: Setting, s: System)
    requires Det(k, s) && Scheduled(k, s, Finish)
    ensures Facts(k, Apply(k.maxAttempts, s, Finish))
  {
    var w, l := s.world, s.local;
    if l.reachedEnd && l.scan > w.job.Position() {
      NothingPassedByJump(w, Apply(k.maxAttempts, s, Finish).world, l.scan);
    }
  }

  lemma StepKeepsFacts(k: Setting, s: System, step: Step)
    requires k.Valid() && Det(k, s) && Scheduled(k, s, step)
    ensures Facts(k, Apply(k.maxAttempts, s, step))
  {
    match step
    case Commit(_) => if s.local.pending != [] { CommitKeepsFacts(k, s, step); }
    case Finish => FinishKeepsFacts(k, s);
    case Visit => VisitKeepsFacts(k, s);
    case Discover(_, _) => assert [] + s.local.messages == s.local.messages;
    case ListFailures(rows) => ListKeepsFacts(k, s, rows);
    case _ =>
  }

  lemma StartIsDet(k: Setting)
    requires k.Valid()
    ensures Det(k, Start(k.mailbox))
  {
    var w := Start(k.mailbox).world;
    assert Passed(w) == {};
    assert Good(k.classifier, {}) == {} && NeedsReview(k.classifier, {}) == {};
  }

  lemma {:induction false} RunIsDet(k: Setting, s: System, steps: seq<Step>)
    requires k.Valid() && Det(k, s) && AllScheduled(k, s, steps)
    ensures Det(k, Exec(k.maxAttempts, s, steps))
    decreases |steps|
  {
    if steps != [] {
      StepIsDet(k, s, steps[0]);
      RunIsDet(k, Apply(k.maxAttempts, s, steps[0]), steps[1..]);
    }
  }

  // ---------------------------------------------------------------- termination measure

  function Unvisited(uids: set<nat>, position: nat): set<nat> {
    set u | u in uids && u > position
  }

  /** Attempts already spent on the message at the frontier. */
  ghost function Spent(failures: map<nat, Failure>, position: nat): nat {
    if exists u :: u in failures && u > position
    then var u :| u in failures && u > position; failures[u].attempts
    else 0
  }

  /** Attempts that the unvisited messages may still take. */
  ghost function Work(k: Setting, w: World): int {
    k.maxAttempts * |Unvisited(w.mailbox.uids, w.job.Position())| - Spent(w.failures, w.job.Position())
  }

  ghost function BatchBound(k: Setting): nat {
    2 * |k.mailbox.uids| + 8
  }

  ghost function StepsLeft(k: Setting, l: Local): nat {
    match l
    case Idle => BatchBound(k)
    case Started(_) => BatchBound(k) - 1
    case Recovering(_, _) => BatchBound(k) - 2
    case Fetched(_, messages, _, _) => 2 * |messages| + 5
    case Visiting(_, pending, unseen, _, _) => 2 * |unseen| + |pending| + 4
    case Committing(_, pending, _, _) => |pending| + 3
    case Finishing(_, _, _, _) => 2
    case Raised => 0
  }

  predicate Progressed(w: World, l: Local) {
    match l
    case Idle => false
    case Raised => false
    case Finishing(after, reachedEnd, _, _) => !reachedEnd || after < w.job.Position()
    case _ => l.after < w.job.Position()
  }

  ghost function Weight(k: Setting, work: int): int {
    work * (2 * BatchBound(k))
  }

  ghost function Measure(k: Setting, s: System): int {
    if s.world.job.state == Completed then 0
    else
      Weight(k, Work(k, s.world)) + StepsLeft(k, s.local)
      + (if Progressed(s.world, s.local) then BatchBound(k) else 0)
  }

  lemma ProductDrops(less: int, more: int, factor: nat)
    requires less < more
    ensures less * factor + factor <= more * factor
  {
    assert (more - less - 1) * factor >= 0;
    assert more * factor == less * factor + factor + (more - less - 1) * factor;
  }

  lemma WeightDrops(k: Setting, less: int, more: int)
    requires less < more
    ensures Weight(k, less) + 2 * BatchBound(k) <= Weight(k, more)
  {
    ProductDrops(less, more, 2 * BatchBound(k));
  }

  lemma SpentAtHead(k: Setting, w: World, rest: seq<nat>, scan: nat)
    requires Rows(k, w) && Window(w, rest, scan)
    ensures Spent(w.failures, w.job.Position())
         == if rest != [] && rest[0] in w.failures then w.failures[rest[0]].attempts else 0
  {
    assert rest != [] ==> rest[0] in rest;
    forall u | u in w.failures && u > w.job.Position() ensures rest != [] && u == rest[0] {
      assert Beyond(w, u) && Marked(w, u);
    }
  }

  lemma WorkIsNatural(k: Setting, s: System)
    requires k.Valid() && Det(k, s)
    ensures Weight(k, Work(k, s.world)) >= 0
  {
    WorkNotNegative(k, s);
    ProductNotNegative(Work(k, s.world), 2 * BatchBound(k));
  }

  lemma ProductNotNegative(x: int, factor: nat)
    requires x >= 0
    ensures x * factor >= 0
  {
  }

  lemma WorkNotNegative(k: Setting, s: System)
    requires k.Valid() && Det(k, s)
    ensures Work(k, s.world) >= 0
  {
    var w := s.world;
    var left := Unvisited(w.mailbox.uids, w.job.Position());
    ProductNotNegative(|left|, k.maxAttempts);
    if u :| u in w.failures && u > w.job.Position() {
      assert u in left;
      assert left != {};
      ProductDrops(0, |left|, k.maxAttempts);
    }
  }

  lemma UnvisitedWithoutHead(w: World, rest: seq<nat>, scan: nat)
    requires rest != [] && Window(w, rest, scan) && rest[0] in w.mailbox.uids
    ensures |Unvisited(w.mailbox.uids, w.job.Position())| == |Unvisited(w.mailbox.uids, rest[0])| + 1
  {
    var head := rest[0];
    var before, after := Unvisited(w.mailbox.uids, w.job.Position()), Unvisited(w.mailbox.uids, head);
    assert head in rest;
    forall u | u in before && u !in after ensures u == head {
      assert Beyond(w, u) && u in rest;
      var i :| 0 <= i < |rest| && rest[i] == u;
    }
    assert before == after + {head};
  }

  lemma PassingSpendsWork(k: Setting, w: World, w': World, rest: seq<nat>, scan: nat)
    requires k.Valid() && WorldInv(k.maxAttempts, w) && Rows(k, w) && Rows(k, w')
    requires rest != [] && Window(w, rest, scan) && rest[0] in w.mailbox.uids
    requires w'.mailbox == w.mailbox && w'.job.Position() == rest[0]
    requires w'.failures.Keys <= w.failures.Keys + {rest[0]}
    ensures Work(k, w') < Work(k, w)
  {
    var head := rest[0];
    assert head in rest;
    SpentAtHead(k, w, rest, scan);
    assert head in w.failures ==> w.failures[head].attempts < k.maxAttempts;
    forall u | u in w'.failures ensures u <= head {
      if u > w.job.Position() && u != head { assert Beyond(w, u) && Marked(w, u); }
    }
    UnvisitedWithoutHead(w, rest, scan);
    ProductIncrement(k.maxAttempts, |Unvisited(w.mailbox.uids, head)|);
  }

  lemma ProductIncrement(a: nat, b: nat)
    ensures a * (b + 1) == a * b + a
  {
  }

  lemma RecordingSpendsWork(k: Setting, w: World, rest: seq<nat>, scan: nat)
    requires Rows(k, w) && rest != [] && Window(w, rest, scan)
    requires RecordFailure(w.failures, rest[0], Error(false))[rest[0]].attempts < k.maxAttempts
    ensures var w' := w.(failures := RecordFailure(w.failures, rest[0], Error(false))); Work(k, w') < Work(k, w)
  {
    var w' := w.(failures := RecordFailure(w.failures, rest[0], Error(false)));
    assert rest[0] in rest;
    SpentAtHead(k, w, rest, scan);
    forall u | u in w'.failures && u > w'.job.Position() ensures u == rest[0] {
      if u != rest[0] { assert Beyond(w, u) && Marked(w, u); }
    }
  }

  lemma CommitSpendsWork(k: Setting, s: System, step: Step)
    requires k.Valid() && Det(k, s) && Scheduled(k, s, step) && step.Commit? && s.local.pending != []
    ensures Work(k, Apply(k.maxAttempts, s, step).world) < Work(k, s.world)
    ensures var s' := Apply(k.maxAttempts, s, step);
      s'.local == Committing(s.local.after, s.local.pending[1..], s.local.scan, s.local.done)
      || s'.local == Finishing(s.local.after, false, s.local.scan, s.local.done)
    ensures Apply(k.maxAttempts, s, step).world.job.state == Running
  {
    var w, l := s.world, s.local;
    var uid := l.pending[0];
    var s' := Apply(k.maxAttempts, s, step);
    assert uid in l.pending && uid in Rest(l);
    StepKeepsFacts(k, s, step);
    if s'.local.Committing? {
      PassingSpendsWork(k, w, s'.world, l.pending, l.scan);
    } else {
      RecordingSpendsWork(k, w, l.pending, l.scan);
    }
  }

  lemma WindowIsShort(k: Setting, s: System)
    requires Det(k, s)
    ensures |Rest(s.local)| <= |k.mailbox.uids|
  {
    var rest := Rest(s.local);
    if rest != [] { AscendingIsShort(rest, k.mailbox.uids); }
  }

  lemma QuietStep(k: Setting, s: System, step: Step)
    requires k.Valid() && Det(k, s) && Scheduled(k, s, step) && !step.Crash?
    requires !(step.Commit? && s.local.pending != []) && !step.Finish?
    ensures Measure(k, Apply(k.maxAttempts, s, step)) < Measure(k, s)
  {
    var s' := Apply(k.maxAttempts, s, step);
    StepIsDet(k, s, step);
    WindowIsShort(k, s');
    QuietEffect(k, s, step);
    assert Work(k, s'.world) == Work(k, s.world);
  }

  lemma QuietEffect(k: Setting, s: System, step: Step)
    requires k.Valid() && Det(k, s) && Scheduled(k, s, step) && !step.Crash?
    requires !(step.Commit? && s.local.pending != []) && !step.Finish?
    requires |Rest(Apply(k.maxAttempts, s, step).local)| <= |k.mailbox.uids|
    ensures var s' := Apply(k.maxAttempts, s, step);
      && s'.world.mailbox == s.world.mailbox && s'.world.failures == s.world.failures
      && s'.world.job.cursor == s.world.job.cursor && s'.world.job.state == s.world.job.state
      && StepsLeft(k, s'.local) < StepsLeft(k, s.local)
      && Progressed(s'.world, s'.local) == Progressed(s.world, s.local)
  {
    if step.Visit? && s.local.unseen != [] {
      assert Rest(s.local)[|s.local.pending|] in Rest(s.local);
    }
  }

  lemma BusyStep(k: Setting, s: System, step: Step)
    requires k.Valid() && Det(k, s) && Scheduled(k, s, step) && step.Commit? && s.local.pending != []
    ensures Measure(k, Apply(k.maxAttempts, s, step)) < Measure(k, s)
  {
    var s' := Apply(k.maxAttempts, s, step);
    CommitSpendsWork(k, s, step);
    WindowIsShort(k, s);
    WeightDrops(k, Work(k, s'.world), Work(k, s.world));
    CommitMeasure(k, s, s');
  }

  lemma CommitMeasure(k: Setting, s: System, s': System)
    requires s.local.Committing? && s.local.pending != [] && |s.local.pending| <= |k.mailbox.uids|
    requires s'.local == Committing(s.local.after, s.local.pending[1..], s.local.scan, s.local.done)
      || s'.local == Finishing(s.local.after, false, s.local.scan, s.local.done)
    requires s.world.job.state == Running && s'.world.job.state == Running
    requires Weight(k, Work(k, s'.world)) + 2 * BatchBound(k) <= Weight(k, Work(k, s.world))
    ensures Measure(k, s') < Measure(k, s)
  {
  }

  lemma LastStep(k: Setting, s: System)
    requires k.Valid() && Det(k, s) && Scheduled(k, s, Finish)
    ensures Measure(k, Apply(k.maxAttempts, s, Finish)) < Measure(k, s)
  {
    var w, l := s.world, s.local;
    var w' := Apply(k.maxAttempts, s, Finish).world;
    WorkIsNatural(k, s);
    if l.reachedEnd && l.scan > w.job.Position() {
      NothingPassedByJump(w, w', l.scan);
      assert Unvisited(w.mailbox.uids, w.job.Position()) == Unvisited(w'.mailbox.uids, w'.job.Position()) by {
        forall u <- w.mailbox.uids ensures u > w.job.Position() <==> u > l.scan {
          assert u in Passed(w) <==> u in Passed(w');
        }
      }
      SpentAtHead(k, w, [], l.scan);
      FinishKeeps(k.maxAttempts, w, l);
      assert Spent(w'.failures, w'.job.Position()) == 0 by {
        forall u | u in w.failures ensures u <= l.scan { assert Beyond(w, u) ==> Marked(w, u); }
      }
    }
  }

  /** Every step of a batch lowers the measure; a crash raises it by at most one batch. */
  lemma StepLowersMeasure(k: Setting, s: System, step: Step)
    requires k.Valid() && Det(k, s) && Scheduled(k, s, step)
    ensures Measure(k, Apply(k.maxAttempts, s, step))
         < Measure(k, s) + (if step.Crash? then BatchBound(k) + 1 else 0)
    ensures Measure(k, s) >= 0
  {
    WorkIsNatural(k, s);
    if step.Crash? {
    } else if step.Finish? { LastStep(k, s); }
    else if step.Commit? && s.local.pending != [] { BusyStep(k, s, step); }
    else { QuietStep(k, s, step); }
  }

  // ---------------------------------------------------------------- main results

  function Crashes(steps: seq<Step>): nat {
    if steps == [] then 0 else (if steps[0].Crash? then 1 else 0) + Crashes(steps[1..])
  }

  ghost function CrashCost(k: Setting, steps: seq<Step>): nat {
    if steps == [] then 0 else (if steps[0].Crash? then BatchBound(k) + 2 else 0) + CrashCost(k, steps[1..])
  }

  lemma {:induction false} CrashCostIsProduct(k: Setting, steps: seq<Step>)
    ensures CrashCost(k, steps) == Crashes(steps) * (BatchBound(k) + 2)
  {
    if steps != [] {
      CrashCostIsProduct(k, steps[1..]);
      ProductIncrement(BatchBound(k) + 2, Crashes(steps[1..]));
    }
  }

  lemma {:induction false} RunIsBounded(k: Setting, s: System, steps: seq<Step>)
    requires k.Valid() && Det(k, s) && AllScheduled(k, s, steps)
    ensures |steps| <= Measure(k, s) + CrashCost(k, steps)
    decreases |steps|
  {
    if steps == [] {
      WorkIsNatural(k, s);
    } else {
      RunIsBoundedStep(k, s, steps);
    }
  }

  lemma RunIsBoundedStep(k: Setting, s: System, steps: seq<Step>)
    requires k.Valid() && Det(k, s) && AllScheduled(k, s, steps) && steps != []
    ensures |steps| <= Measure(k, s) + CrashCost(k, steps)
    decreases |steps|, 0
  {
    var s' := Apply(k.maxAttempts, s, steps[0]);
    StepLowersMeasure(k, s, steps[0]);
    StepIsDet(k, s, steps[0]);
    RunIsBounded(k, s', steps[1..]);
  }

  /** Termination: a chain of batches over n messages with c crashes takes a bounded number of steps. */
  lemma ChainTerminates(k: Setting, steps: seq<Step>)
    requires k.Valid() && AllScheduled(k, Start(k.mailbox), steps)
    ensures var n := |k.mailbox.uids|;
      |steps| <= (2 * k.maxAttempts * n + 1 + Crashes(steps)) * (2 * n + 10)
  {
    StartIsDet(k);
    RunIsBounded(k, Start(k.mailbox), steps);
    CrashCostIsProduct(k, steps);
    StartMeasure(k);
    BoundArithmetic(k.maxAttempts * |k.mailbox.uids|, Crashes(steps), BatchBound(k));
    assert 2 * k.maxAttempts * |k.mailbox.uids| == 2 * (k.maxAttempts * |k.mailbox.uids|);
  }

  lemma StartMeasure(k: Setting)
    requires k.Valid()
    ensures Measure(k, Start(k.mailbox)) == k.maxAttempts * |k.mailbox.uids| * (2 * BatchBound(k)) + BatchBound(k)
  {
    var w := Start(k.mailbox).world;
    assert Unvisited(k.mailbox.uids, 0) == k.mailbox.uids;
    assert Work(k, w) == k.maxAttempts * |k.mailbox.uids|;
  }

  lemma BoundArithmetic(work: nat, c: nat, b: nat)
    ensures work * (2 * b) + b + c * (b + 2) <= (2 * work + 1 + c) * (b + 2)
  {
    assert work * (2 * b) == 2 * work * b;
    assert (2 * work + 1 + c) * (b + 2) == 2 * work * b + 4 * work + b + 2 + c * (b + 2);
  }

  lemma {:induction false} FirstMessages(uids: set<nat>, after: nat, limit: nat) returns (messages: seq<nat>)
    ensures Ascending(messages)
    ensures forall u :: u in messages <==> u in uids && after < u <= limit
    decreases limit
  {
    if limit <= after {
      messages := [];
    } else {
      messages := FirstMessages(uids, after, limit - 1);
      if limit in uids {
        assert forall i :: 0 <= i < |messages| ==> messages[i] in messages;
        messages := messages + [limit];
      }
    }
  }

  lemma BatchExists(mailbox: Mailbox, after: nat, maxCount: nat) returns (messages: seq<nat>, scan: nat)
    requires mailbox.Valid() && maxCount > 0
    ensures IsBatch(mailbox, after, maxCount, messages, scan)
  {
    var all := FirstMessages(mailbox.uids, after, mailbox.uidNext - 1);
    if |all| < maxCount {
      messages := all;
      scan := if mailbox.uidNext <= after + 1 then after else mailbox.uidNext - 1;
    } else {
      messages, scan := all[..maxCount], all[maxCount - 1];
      assert scan in all;
      forall u ensures u in messages <==> u in mailbox.uids && after < u <= scan {
        if u in mailbox.uids && after < u <= scan {
          var i :| 0 <= i < |all| && all[i] == u;
          assert messages[i] == u;
        }
      }
    }
  }

  /** The batch can always go on, with any batch size, until the job is completed. */
  lemma CanContinue(k: Setting, s: System, maxCount: nat) returns (step: Step)
    requires k.Valid() && Det(k, s) && s.world.job.state != Completed && maxCount > 0
    ensures Scheduled(k, s, step) && !step.Crash? && (step.Fetch? ==> step.maxCount == maxCount)
  {
    match s.local
    case Idle => step := Begin;
    case Started(_) =>
      step := ListFailures([]);
      assert forall u <- s.world.failures :: !RecoverableRow(s.world, u);
    case Recovering(after, _) =>
      var messages, scan := BatchExists(s.world.mailbox, after, maxCount);
      step := Fetch(maxCount, messages, scan);
    case Fetched(_, _, _, _) => step := Discover(k.uidvalidity, 0);
    case Visiting(_, _, _, _, _) => step := Visit;
    case Committing(_, pending, _, _) =>
      step := Commit(if pending == [] then Transient else OutcomeOf(k.classifier, pending[0]));
    case Finishing(_, _, _, _) => step := Finish;
  }

  /** Nothing is left beyond the cursor, and everything before it has its row. */
  ghost predicate AllPassed(k: Setting, w: World) {
    && w.mailbox == k.mailbox && Rows(k, w) && Passed(w) == k.mailbox.uids
    && Counted(k.classifier, w.job, Passed(w)) && Covered(k.maxAttempts, w) && w.job.state == Completed
  }

  lemma PassedRow(k: Setting, w: World, u: nat)
    requires AllPassed(k, w) && u in k.mailbox.uids
    ensures u in k.classifier ==> u in w.proposals && u !in w.failures
    ensures u !in k.classifier ==> u in w.failures && u !in w.proposals && w.failures[u].attempts == k.maxAttempts
  {
    assert u in Passed(w);
  }

  lemma AllPassedIsFinished(k: Setting, w: World)
    requires AllPassed(k, w)
    ensures Finished(k, w)
  {
    forall u <- k.mailbox.uids
      ensures u in k.classifier ==> u in w.proposals && u !in w.failures
      ensures u !in k.classifier ==> u in w.failures && u !in w.proposals && w.failures[u].attempts == k.maxAttempts
    {
      PassedRow(k, w, u);
    }
    assert w.proposals.Keys == Good(k.classifier, k.mailbox.uids);
    assert w.failures.Keys == k.mailbox.uids - Good(k.classifier, k.mailbox.uids);
  }

  lemma CompletedIsFinished(k: Setting, s: System)
    requires Det(k, s) && s.world.job.state == Completed
    ensures Finished(k, s.world)
  {
    assert Passed(s.world) == k.mailbox.uids;
    AllPassedIsFinished(k, s.world);
  }

  /** Whatever the batch sizes and crash points: a completed chain has exactly the specified rows. */
  lemma CompletedMeansFinished(k: Setting, steps: seq<Step>)
    requires k.Valid() && AllScheduled(k, Start(k.mailbox), steps)
    requires Exec(k.maxAttempts, Start(k.mailbox), steps).world.job.state == Completed
    ensures Finished(k, Exec(k.maxAttempts, Start(k.mailbox), steps).world)
  {
    StartIsDet(k);
    RunIsDet(k, Start(k.mailbox), steps);
    CompletedIsFinished(k, Exec(k.maxAttempts, Start(k.mailbox), steps));
  }
}
