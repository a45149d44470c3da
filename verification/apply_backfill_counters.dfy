/** Apply mode: the job counters are exactly the rows, in every reachable state; and when messages can be
    jumped over. */
module ApplyBackfillCounters {
  import opened Common
  import opened BackfillStore
  import opened HistoricalFetch
  import opened ApplyBackfill

  /** Rows the `failed` counter stands for: attempts used up and not resolved. */
  function OpenRows(maxAttempts: nat, failures: map<nat, Failure>): set<nat> {
    set u | u in failures && failures[u].attempts >= maxAttempts && failures[u].status != ResolvedRow
  }

  ghost predicate CountersMatch(maxAttempts: nat, w: World) {
    && w.job.failed == |OpenRows(maxAttempts, w.failures)|
    && CountersExact(w.job)
    && w.job.reviewRequired <= w.job.successful
  }

  /** Only messages the cursor has passed have used up their attempts; a retry in flight owns its row. */
  ghost predicate Exhausted(maxAttempts: nat, w: World) {
    && (forall u <- w.failures :: w.failures[u].attempts >= maxAttempts ==> u <= w.job.Position())
    && (forall u <- w.failures :: w.failures[u].status == RetryingRow ==> w.failures[u].attempts >= maxAttempts)
    && (forall u <- w.retrying :: u in w.failures && w.failures[u].status == RetryingRow)
  }

  ghost predicate AheadOf(position: nat, rest: seq<nat>, scan: nat) {
    Ascending(rest) && (forall u <- rest :: position < u <= scan) && position <= scan
  }

  ghost predicate LocalInv(w: World, l: Local) {
    match l
    case Idle => true
    case Started(after) => after == w.job.Position()
    case Raised => false
    case Finishing(_, _, scan, _) => w.job.Position() <= scan && AheadOf(w.job.Position(), l.rest, scan)
    case _ => AheadOf(w.job.Position(), l.rest, l.scan) && (l.Working? || l.Recorded? ==> l.rest != [])
  }

  ghost predicate Inv(maxAttempts: nat, s: System) {
    && s.world.mailbox.Valid()
    && CountersMatch(maxAttempts, s.world) && Exhausted(maxAttempts, s.world) && LocalInv(s.world, s.local)
  }

  lemma HeadPasses(position: nat, rest: seq<nat>, scan: nat)
    requires rest != [] && AheadOf(position, rest, scan)
    ensures position < rest[0] <= scan && AheadOf(rest[0], rest[1..], scan)
  {
    assert rest[0] in rest;
    forall u | u in rest[1..] ensures rest[0] < u <= scan {
      var i :| 0 <= i < |rest| - 1 && rest[1..][i] == u;
      assert rest[i + 1] in rest;
    }
  }

  /** Counting a message beyond the cursor as successful touches no counted row. */
  lemma SucceedKeeps(maxAttempts: nat, w: World, uid: nat)
    requires CountersMatch(maxAttempts, w) && Exhausted(maxAttempts, w) && w.job.Position() < uid
    ensures var (w', flow) := Succeed(w, uid);
      && flow == GoOn && w'.job.Position() == uid && w'.mailbox == w.mailbox
      && CountersMatch(maxAttempts, w') && Exhausted(maxAttempts, w')
  {
    var (w', flow) := Succeed(w, uid);
    assert OpenRows(maxAttempts, w'.failures) == OpenRows(maxAttempts, w.failures);
  }

  lemma OpenAfterRecord(maxAttempts: nat, failures: map<nat, Failure>, uid: nat, error: Error)
    requires uid in failures ==> failures[uid].attempts < maxAttempts
    ensures var after := RecordFailure(failures, uid, error);
      && uid !in OpenRows(maxAttempts, failures)
      && OpenRows(maxAttempts, after)
         == OpenRows(maxAttempts, failures) + (if after[uid].attempts >= maxAttempts then {uid} else {})
  {
  }

  lemma FailKeepsExhausted(maxAttempts: nat, w: World, uid: nat, error: Error)
    requires Exhausted(maxAttempts, w) && w.job.Position() < uid
    ensures Exhausted(maxAttempts, Fail(maxAttempts, w, uid, error).0)
  {
  }

  lemma FailKeeps(maxAttempts: nat, w: World, uid: nat, error: Error)
    requires CountersMatch(maxAttempts, w) && Exhausted(maxAttempts, w) && w.job.Position() < uid
    ensures var (w', flow) := Fail(maxAttempts, w, uid, error);
      && flow != Refused && w'.mailbox == w.mailbox
      && w'.job.Position() == (if flow == GoOn then uid else w.job.Position())
      && CountersMatch(maxAttempts, w') && Exhausted(maxAttempts, w')
  {
    FailKeepsExhausted(maxAttempts, w, uid, error);
    assert uid in w.failures ==> w.failures[uid].attempts < maxAttempts;
    OpenGrows(maxAttempts, w.failures, uid, error);
  }

  lemma OpenGrows(maxAttempts: nat, failures: map<nat, Failure>, uid: nat, error: Error)
    requires uid in failures ==> failures[uid].attempts < maxAttempts
    ensures var after := RecordFailure(failures, uid, error);
      |OpenRows(maxAttempts, after)|
        == |OpenRows(maxAttempts, failures)| + (if after[uid].attempts >= maxAttempts then 1 else 0)
  {
    OpenAfterRecord(maxAttempts, failures, uid, error);
  }

  lemma FetchKeeps(maxAttempts: nat, s: System, step: Step)
    requires Inv(maxAttempts, s) && step.Fetch?
    ensures Inv(maxAttempts, Apply(maxAttempts, s, step))
    ensures s.world.job.Position() <= Apply(maxAttempts, s, step).world.job.Position()
  {
    if |step.messages| > 0 { assert step.messages[|step.messages| - 1] in step.messages; }
  }

  lemma CountingKeeps(maxAttempts: nat, s: System, step: Step)
    requires Inv(maxAttempts, s) && (step.Check? || step.Commit?)
    ensures Inv(maxAttempts, Apply(maxAttempts, s, step))
    ensures s.world.job.Position() <= Apply(maxAttempts, s, step).world.job.Position()
  {
    var w, l := s.world, s.local;
    if ((step.Check? && l.Looping?) || (step.Commit? && l.Recorded?)) && l.rest != [] {
      HeadPasses(w.job.Position(), l.rest, l.scan);
      SucceedKeeps(maxAttempts, w, l.rest[0]);
    }
  }

  lemma ProcessKeeps(maxAttempts: nat, s: System, step: Step)
    requires Inv(maxAttempts, s) && step.Process? && maxAttempts > 0
    ensures Inv(maxAttempts, Apply(maxAttempts, s, step))
    ensures s.world.job.Position() <= Apply(maxAttempts, s, step).world.job.Position()
  {
    var w, l := s.world, s.local;
    if l.Working? {
      HeadPasses(w.job.Position(), l.rest, l.scan);
      if step.outcome.Broken? { FailKeeps(maxAttempts, w, l.rest[0], step.outcome.error); }
    }
  }

  lemma BatchStepKeeps(maxAttempts: nat, s: System, step: Step)
    requires Inv(maxAttempts, s) && step.ByBatch() && maxAttempts > 0
    ensures Inv(maxAttempts, Apply(maxAttempts, s, step))
    ensures s.world.job.Position() <= Apply(maxAttempts, s, step).world.job.Position()
  {
    match step
    case Fetch(_, _, _) => FetchKeeps(maxAttempts, s, step);
    case Process(_) => ProcessKeeps(maxAttempts, s, step);
    case Check => CountingKeeps(maxAttempts, s, step);
    case Commit => CountingKeeps(maxAttempts, s, step);
    case _ =>
  }

  /** The `failed > 0` guard of a retry success never hides a mismatch: the retried row is counted. */
  lemma RetrySuccessKeeps(maxAttempts: nat, w: World, uid: nat)
    requires CountersMatch(maxAttempts, w) && Exhausted(maxAttempts, w) && uid in w.retrying
    ensures w.job.failed > 0
    ensures var w' := WorldStep(maxAttempts, w, RetrySucceeds(uid));
      CountersMatch(maxAttempts, w') && Exhausted(maxAttempts, w')
  {
    var w' := WorldStep(maxAttempts, w, RetrySucceeds(uid));
    assert uid in OpenRows(maxAttempts, w.failures);
    assert OpenRows(maxAttempts, w'.failures) == OpenRows(maxAttempts, w.failures) - {uid};
  }

  lemma RowStepKeeps(maxAttempts: nat, w: World, step: Step)
    requires CountersMatch(maxAttempts, w) && Exhausted(maxAttempts, w) && !step.ByBatch()
    ensures var w' := WorldStep(maxAttempts, w, step);
      CountersMatch(maxAttempts, w') && Exhausted(maxAttempts, w') && w'.job.Position() == w.job.Position()
  {
    var w' := WorldStep(maxAttempts, w, step);
    if step.RetrySucceeds? && step.uid in w.retrying {
      RetrySuccessKeeps(maxAttempts, w, step.uid);
    } else {
      assert OpenRows(maxAttempts, w'.failures) == OpenRows(maxAttempts, w.failures);
    }
  }

  lemma StepKeeps(maxAttempts: nat, s: System, step: Step)
    requires Inv(maxAttempts, s) && maxAttempts > 0
    ensures Inv(maxAttempts, Apply(maxAttempts, s, step))
    ensures s.world.job.Position() <= Apply(maxAttempts, s, step).world.job.Position()
  {
    if step.ByBatch() { BatchStepKeeps(maxAttempts, s, step); }
    else { RowStepKeeps(maxAttempts, s.world, step); }
  }

  lemma {:induction false} ExecKeeps(maxAttempts: nat, s: System, steps: seq<Step>)
    requires Inv(maxAttempts, s) && maxAttempts > 0
    ensures Inv(maxAttempts, Exec(maxAttempts, s, steps))
    ensures s.world.job.Position() <= Exec(maxAttempts, s, steps).world.job.Position()
    decreases |steps|
  {
    if steps != [] {
      StepKeeps(maxAttempts, s, steps[0]);
      ExecKeeps(maxAttempts, Apply(maxAttempts, s, steps[0]), steps[1..]);
    }
  }

  /** Counters refine rows in every reachable state, and the cursor is never refused. */
  lemma CountersAreRows(maxAttempts: nat, mailbox: Mailbox, handled: map<nat, bool>, steps: seq<Step>)
    requires maxAttempts > 0 && mailbox.Valid()
    ensures var s := Exec(maxAttempts, Start(mailbox, handled), steps);
      !s.local.Raised? && CountersMatch(maxAttempts, s.world)
  {
    assert OpenRows(maxAttempts, map[]) == {};
    ExecKeeps(maxAttempts, Start(mailbox, handled), steps);
  }

  // ---------------------------------------------------------------- messages jumped over

  predicate Lost(maxAttempts: nat, w: World, uid: nat) {
    && uid in w.mailbox.uids && uid <= w.job.Position() && uid !in w.handled
    && !(uid in w.failures && w.failures[uid].attempts >= maxAttempts)
  }

  ghost predicate NothingLost(maxAttempts: nat, w: World) {
    forall u <- w.mailbox.uids :: !Lost(maxAttempts, w, u)
  }

  /** `rest` holds every message between the cursor and the scan position. */
  ghost predicate Complete(w: World, l: Local) {
    match l
    case Idle => true
    case Started(_) => true
    case Raised => true
    case Finishing(rest, yielded, scan, _) => yielded || Holds(w, rest, scan)
    case Fetched(rest, scan, _) => Holds(w, rest, scan)
    case Looping(rest, scan, _) => Holds(w, rest, scan)
    case Working(rest, scan, _) => Holds(w, rest, scan)
    case Recorded(rest, scan, _) => Holds(w, rest, scan) && (rest != [] ==> rest[0] in w.handled)
  }

  ghost predicate Holds(w: World, rest: seq<nat>, scan: nat) {
    forall u <- w.mailbox.uids :: w.job.Position() < u <= scan ==> u in rest
  }

  ghost predicate Lossless(maxAttempts: nat, s: System) {
    && Inv(maxAttempts, s) && s.world.job.Position() < s.world.mailbox.uidNext
    && (s.local.Fetched? || s.local.Looping? || s.local.Working? || s.local.Recorded? || s.local.Finishing? ==>
          s.local.scan < s.world.mailbox.uidNext)
    && NothingLost(maxAttempts, s.world) && Complete(s.world, s.local)
  }

  /** Passing the head of a complete list, once it is dealt with, loses nothing. */
  lemma PassHeadLosesNothing(maxAttempts: nat, w: World, w': World, rest: seq<nat>, scan: nat)
    requires NothingLost(maxAttempts, w) && rest != [] && AheadOf(w.job.Position(), rest, scan) && Holds(w, rest, scan)
    requires w'.mailbox == w.mailbox && w'.job.Position() == rest[0] && w'.handled == w.handled
    requires forall u <- w.failures | u != rest[0] :: u in w'.failures && w'.failures[u].attempts >= w.failures[u].attempts
    requires !Lost(maxAttempts, w', rest[0])
    ensures NothingLost(maxAttempts, w') && Holds(w', rest[1..], scan)
  {
    HeadPasses(w.job.Position(), rest, scan);
    forall u | u in w.mailbox.uids ensures !Lost(maxAttempts, w', u) {
      if w.job.Position() < u <= rest[0] {
        assert u in rest;
        var i :| 0 <= i < |rest| && rest[i] == u;
      } else {
        assert !Lost(maxAttempts, w, u);
      }
    }
    forall u | u in w'.mailbox.uids && rest[0] < u <= scan ensures u in rest[1..] { assert u in rest; }
  }

  /** Staying at the same position loses nothing while rows only grow. */
  lemma StayLosesNothing(maxAttempts: nat, w: World, w': World)
    requires NothingLost(maxAttempts, w)
    requires w'.mailbox.uids <= w.mailbox.uids && w'.job.Position() == w.job.Position()
    requires w.handled.Keys <= w'.handled.Keys
    requires forall u <- w.failures :: u in w'.failures && w'.failures[u].attempts >= w.failures[u].attempts
    ensures NothingLost(maxAttempts, w')
    ensures forall rest: seq<nat>, scan: nat :: Holds(w, rest, scan) ==> Holds(w', rest, scan)
  {
    forall u | u in w'.mailbox.uids ensures !Lost(maxAttempts, w', u) { assert !Lost(maxAttempts, w, u); }
  }

  lemma SucceedLosesNothing(maxAttempts: nat, w: World, rest: seq<nat>, scan: nat)
    requires NothingLost(maxAttempts, w) && rest != [] && AheadOf(w.job.Position(), rest, scan) && Holds(w, rest, scan)
    requires rest[0] in w.handled
    ensures var (w', flow) := Succeed(w, rest[0]);
      flow == GoOn && NothingLost(maxAttempts, w') && Holds(w', rest[1..], scan)
  {
    HeadPasses(w.job.Position(), rest, scan);
    PassHeadLosesNothing(maxAttempts, w, Succeed(w, rest[0]).0, rest, scan);
  }

  lemma FailLosesNothing(maxAttempts: nat, w: World, rest: seq<nat>, scan: nat, error: Error)
    requires NothingLost(maxAttempts, w) && rest != [] && AheadOf(w.job.Position(), rest, scan) && Holds(w, rest, scan)
    ensures var (w', flow) := Fail(maxAttempts, w, rest[0], error);
      flow != Refused && NothingLost(maxAttempts, w') && (flow == GoOn ==> Holds(w', rest[1..], scan))
  {
    HeadPasses(w.job.Position(), rest, scan);
    var (w', flow) := Fail(maxAttempts, w, rest[0], error);
    if flow == GoOn { PassHeadLosesNothing(maxAttempts, w, w', rest, scan); }
    else { StayLosesNothing(maxAttempts, w, w'); }
  }

  /** Every transaction of a batch but the last keeps every message accounted for. */
  lemma LoopStepLosesNothing(maxAttempts: nat, s: System, step: Step)
    requires Lossless(maxAttempts, s) && maxAttempts > 0 && step.ByBatch() && !step.Finish?
    ensures NothingLost(maxAttempts, Apply(maxAttempts, s, step).world)
    ensures Complete(Apply(maxAttempts, s, step).world, Apply(maxAttempts, s, step).local)
  {
    var w, l := s.world, s.local;
    var w' := Apply(maxAttempts, s, step).world;
    match step
    case Check =>
      if l.Looping? && l.rest != [] && l.rest[0] in w.handled {
        SucceedLosesNothing(maxAttempts, w, l.rest, l.scan);
      }
    case Commit => if l.Recorded? && l.rest != [] { SucceedLosesNothing(maxAttempts, w, l.rest, l.scan); }
    case Process(outcome) =>
      if l.Working? && outcome.Broken? { FailLosesNothing(maxAttempts, w, l.rest, l.scan, outcome.error); }
      else if l.Working? { StayLosesNothing(maxAttempts, w, w'); }
    case Discover(_, _) => StayLosesNothing(maxAttempts, w, w');
    case _ =>
  }

  /** The last transaction loses a message if and only if it runs on past an observed pause with an
      unvisited message still in the mailbox. */
  lemma FinishLosesExactly(maxAttempts: nat, s: System)
    requires Lossless(maxAttempts, s) && s.local.Finishing?
    ensures NothingLost(maxAttempts, Apply(maxAttempts, s, Finish).world) <==>
      (s.world.job.state == Running && !s.local.yielded ==>
         forall u <- s.local.rest :: u in s.world.mailbox.uids ==>
           u in s.world.handled || (u in s.world.failures && s.world.failures[u].attempts >= maxAttempts))
  {
    var w, l := s.world, s.local;
    var w' := Apply(maxAttempts, s, Finish).world;
    if w.job.state == Running && !l.yielded {
      assert w'.job.Position() == l.scan;
      forall u | u in w.mailbox.uids
        ensures Lost(maxAttempts, w', u) <==>
          (u in l.rest && u !in w.handled && !(u in w.failures && w.failures[u].attempts >= maxAttempts))
      {
        assert !Lost(maxAttempts, w, u);
        assert u in l.rest ==> w.job.Position() < u <= l.scan;
      }
    } else {
      forall u | u in w.mailbox.uids ensures !Lost(maxAttempts, w', u) { assert !Lost(maxAttempts, w, u); }
    }
  }

  // ---------------------------------------------------------------- runs that lose nothing

  /** The job is not running on past a pause the loop has observed. */
  predicate Honest(s: System) {
    s.local.Finishing? && !s.local.yielded && s.local.rest != [] ==> s.world.job.state != Running
  }

  /** The job is not resumed while a batch is in flight. */
  predicate NoResume(s: System, step: Step) {
    step == SetState(Running) ==> s.local.Idle? || s.world.job.state == Running
  }

  ghost predicate NeverResumedInFlight(maxAttempts: nat, s: System, steps: seq<Step>)
    decreases |steps|
  {
    steps != [] ==>
      NoResume(s, steps[0]) && NeverResumedInFlight(maxAttempts, Apply(maxAttempts, s, steps[0]), steps[1..])
  }

  ghost predicate ScanInside(s: System) {
    && s.world.job.Position() < s.world.mailbox.uidNext
    && (s.local.Fetched? || s.local.Looping? || s.local.Working? || s.local.Recorded? || s.local.Finishing? ==>
          s.local.scan < s.world.mailbox.uidNext)
  }

  lemma BatchStepStaysInside(maxAttempts: nat, s: System, step: Step)
    requires Lossless(maxAttempts, s) && Honest(s) && step.ByBatch() && maxAttempts > 0
    ensures ScanInside(Apply(maxAttempts, s, step)) && Honest(Apply(maxAttempts, s, step))
  {
    var w, l := s.world, s.local;
    if step.Fetch? && l.Started? {
      if |step.messages| > 0 { assert step.messages[|step.messages| - 1] in step.messages; }
    } else if (l.Looping? || l.Working? || l.Recorded?) && l.rest != [] {
      HeadPasses(w.job.Position(), l.rest, l.scan);
    }
  }

  lemma OthersLoseNothing(maxAttempts: nat, s: System, step: Step)
    requires Lossless(maxAttempts, s) && Honest(s) && NoResume(s, step) && !step.ByBatch()
    ensures var s' := Apply(maxAttempts, s, step);
      NothingLost(maxAttempts, s'.world) && Complete(s'.world, s'.local) && ScanInside(s') && Honest(s')
  {
    var w, w' := s.world, WorldStep(maxAttempts, s.world, step);
    if step.Deliver? {
      forall u | u in w'.mailbox.uids ensures !Lost(maxAttempts, w', u) {
        assert u in w.mailbox.uids ==> !Lost(maxAttempts, w, u);
      }
      assert forall rest: seq<nat>, scan: nat | scan < w.mailbox.uidNext && Holds(w, rest, scan) :: Holds(w', rest, scan);
    } else {
      StayLosesNothing(maxAttempts, w, w');
    }
  }

  lemma StepLosesNothing(maxAttempts: nat, s: System, step: Step)
    requires Lossless(maxAttempts, s) && Honest(s) && NoResume(s, step) && maxAttempts > 0
    ensures Lossless(maxAttempts, Apply(maxAttempts, s, step)) && Honest(Apply(maxAttempts, s, step))
  {
    StepKeeps(maxAttempts, s, step);
    if !step.ByBatch() {
      OthersLoseNothing(maxAttempts, s, step);
    } else {
      BatchStepStaysInside(maxAttempts, s, step);
      if !step.Finish? { LoopStepLosesNothing(maxAttempts, s, step); }
      else if s.local.Finishing? { FinishLosesExactly(maxAttempts, s); }
    }
  }

  lemma {:induction false} RunLosesNothing(maxAttempts: nat, s: System, steps: seq<Step>)
    requires Lossless(maxAttempts, s) && Honest(s) && maxAttempts > 0
    requires NeverResumedInFlight(maxAttempts, s, steps)
    ensures NothingLost(maxAttempts, Exec(maxAttempts, s, steps).world)
    decreases |steps|
  {
    if steps != [] {
      StepLosesNothing(maxAttempts, s, steps[0]);
      RunLosesNothing(maxAttempts, Apply(maxAttempts, s, steps[0]), steps[1..]);
    }
  }

  /** Unless a paused or failed job is resumed while its batch is in flight, every message at or before
      the cursor has been handled or has used up its attempts. */
  lemma NothingLostWithoutResume(maxAttempts: nat, mailbox: Mailbox, handled: map<nat, bool>, steps: seq<Step>)
    requires maxAttempts > 0 && mailbox.Valid()
    requires NeverResumedInFlight(maxAttempts, Start(mailbox, handled), steps)
    ensures NothingLost(maxAttempts, Exec(maxAttempts, Start(mailbox, handled), steps).world)
  {
    assert OpenRows(maxAttempts, map[]) == {};
    RunLosesNothing(maxAttempts, Start(mailbox, handled), steps);
  }

  /** A pause observed by the loop and a resume before its last transaction complete the job with every
      message of the batch skipped and no row to show for it. */
  lemma PauseResumeSkips(maxAttempts: nat, mailbox: Mailbox, messages: seq<nat>, scan: nat)
    requires mailbox.Valid() && mailbox.uids != {}
    requires IsBatch(mailbox, 0, |mailbox.uids| + 1, messages, scan)
    ensures var steps := [Begin, Fetch(|mailbox.uids| + 1, messages, scan), Discover(1, 0), SetState(Paused), Check,
                          SetState(Running), Finish];
      var s := Exec(maxAttempts, Start(mailbox, map[]), steps);
      s.world.job.state == Completed && s.world.handled == map[] && s.world.failures == map[]
      && s.world.mailbox == mailbox && s.world.job.processed == 0
  {
    var n := |mailbox.uids| + 1;
    FullBatch(mailbox, messages, scan);
    var s0 := Start(mailbox, map[]);
    var s1 := Apply(maxAttempts, s0, Begin);
    var s2 := Apply(maxAttempts, s1, Fetch(n, messages, scan));
    var s3 := Apply(maxAttempts, s2, Discover(1, 0));
    var s4 := Apply(maxAttempts, s3, SetState(Paused));
    var s5 := Apply(maxAttempts, s4, Check);
    var s6 := Apply(maxAttempts, s5, SetState(Running));
    assert s6.local == Finishing(messages, false, scan, true);
    ExecSeven(maxAttempts, s0, Begin, Fetch(n, messages, scan), Discover(1, 0), SetState(Paused), Check,
              SetState(Running), Finish);
  }

  lemma FullBatch(mailbox: Mailbox, messages: seq<nat>, scan: nat)
    requires mailbox.Valid() && IsBatch(mailbox, 0, |mailbox.uids| + 1, messages, scan)
    ensures scan + 1 >= mailbox.uidNext
  {
    AscendingIsShort(messages, mailbox.uids);
  }

  lemma ExecSeven(m: nat, s: System, a: Step, b: Step, c: Step, d: Step, e: Step, f: Step, g: Step)
    ensures Exec(m, s, [a, b, c, d, e, f, g])
         == Apply(m, Apply(m, Apply(m, Apply(m, Apply(m, Apply(m, Apply(m, s, a), b), c), d), e), f), g)
  {
    ExecFour(m, s, a, b, c, [d, e, f, g]);
    var s3 := Apply(m, Apply(m, Apply(m, s, a), b), c);
    assert [a, b, c] + [d, e, f, g] == [a, b, c, d, e, f, g];
    ExecFour(m, s3, d, e, f, [g]);
    assert [d, e, f] + [g] == [d, e, f, g];
    assert [g] + [] == [g];
    ExecOne(m, Apply(m, Apply(m, Apply(m, s3, d), e), f), g, []);
  }

  lemma ExecFour(m: nat, s: System, a: Step, b: Step, c: Step, rest: seq<Step>)
    ensures Exec(m, s, [a, b, c] + rest) == Exec(m, Apply(m, Apply(m, Apply(m, s, a), b), c), rest)
  {
    ExecOne(m, s, a, [b, c] + rest);
    ExecOne(m, Apply(m, s, a), b, [c] + rest);
    ExecOne(m, Apply(m, Apply(m, s, a), b), c, rest);
    assert [a, b, c] + rest == [a] + ([b, c] + rest) && [b, c] + rest == [b] + ([c] + rest);
  }

  lemma ExecOne(m: nat, s: System, a: Step, rest: seq<Step>)
    ensures Exec(m, s, [a] + rest) == Exec(m, Apply(m, s, a), rest)
  {
    assert ([a] + rest)[1..] == rest;
  }
}
