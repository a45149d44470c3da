/** Where a batch is bound for: the outcome of the pass that is left. Steps do not change it, and a crash changes
    it only between the copy of a move and its expunge, by exactly one copy. */
module BulkApplyConfluence {
  import opened Common
  import opened BulkRows
  import opened BulkApply
  import opened BulkApplySafety
  import opened BulkApplyPass
  import opened BulkApplyReplay

  // ---------------------------------------------------------------- what a running batch is bound for

  ghost predicate HandInv(l: Local, m: Mail) {
    && (l.Fetching? ==> l.item.proposal.approved == Some(l.snapshot) && !l.snapshot.Blocked())
    && (l.Acting? ==> Midway(m, l.item.uid, l.item.proposal, l.snapshot, l.left))
    && (l.Result? ==> Repeats(Process(m, l.item.uid, l.item.proposal), m, l.result, l.error))
  }

  /** The batch, alone with its mailbox. */
  ghost predicate BatchInv(s: System) {
    s.world.job.Some? && Held(s.world.rows, Items(s.local)) && HandInv(s.local, s.world.mail)
  }

  /** Where the state is bound for if nothing interrupts it. */
  ghost function Target(s: System): Outcome
    requires BatchInv(s)
  {
    var l, w := s.local, s.world;
    if l.Acting? then
      assert Items(l)[0] == l.item;
      FinishAll(Outcome(PerformAll(w.mail, l.item.uid, l.left),
        MarkRow(w.rows, l.item.uid, if HasAction(l.item.proposal, l.snapshot) then Applied else Skipped, None)))
    else if l.Result? then
      assert Items(l)[0] == l.item;
      FinishAll(Outcome(w.mail, MarkRow(w.rows, l.item.uid, l.result, l.error)))
    else FinishAll(Outcome(w.mail, w.rows))
  }

  /** Steps of the batch alone whose provider calls succeed. */
  predicate Smooth(step: Step) {
    step.ByBatch() && !step.ProviderFails?
  }

  /** A move has copied its message and not yet expunged it. */
  predicate InWindow(l: Local) {
    l.Acting? && HasMove(l.item.proposal, l.snapshot) && 1 <= |l.left| <= 2
  }

  /** What a crash in the window makes the restart file again: the message in hand, as it stood at the crash. */
  function Duplicated(s: System, step: Step): multiset<Extra> {
    if step.Crash? && InWindow(s.local) && s.local.item.uid in s.world.mail.source
    then multiset{Extra(s.local.snapshot.folder, s.world.mail.source[s.local.item.uid])} else multiset{}
  }

  // ---------------------------------------------------------------- one step

  lemma FinishHead(o: Outcome, uid: nat)
    requires IsLeast(uid, Queue(o.rows))
    ensures FinishAll(o) == FinishAll(ProcessRow(o, uid))
  {
    assert Least(Queue(o.rows)) == uid;
  }

  lemma ReadAims(s: System, items: seq<Item>)
    requires BatchInv(s)
    ensures BatchInv(BatchStep(s, ReadBatch(items))) && Target(BatchStep(s, ReadBatch(items))) == Target(s)
  {
  }

  lemma TakeAims(s: System)
    requires BatchInv(s)
    ensures BatchInv(BatchStep(s, Take)) && Target(BatchStep(s, Take)) == Target(s)
  {
    if s.local.Batch? && s.local.todo != [] {
      var item, rest := s.local.todo[0], s.local.todo[1..];
      assert [item] + rest == s.local.todo;
      HeadIsLeast(s.world.rows, s.local.todo);
      FinishHead(Outcome(s.world.mail, s.world.rows), item.uid);
      assert Items(TakeItem(s, item, rest).local) == s.local.todo;
    }
  }

  lemma FetchAims(s: System)
    requires BatchInv(s)
    ensures BatchInv(BatchStep(s, Fetch)) && Target(BatchStep(s, Fetch)) == Target(s)
  {
    if s.local.Fetching? {
      var l, m := s.local, s.world.mail;
      assert Items(l)[0] == l.item;
      HeadIsLeast(s.world.rows, Items(l));
      FinishHead(Outcome(m, s.world.rows), l.item.uid);
      assert Items(FetchItem(s, l.item, l.snapshot, l.todo).local) == Items(l);
      if m.uidvalidity == l.item.proposal.uidvalidity && l.item.uid in m.source {
        FetchedMidway(m, l.item.uid, l.item.proposal, l.snapshot);
      }
    }
  }

  /** Before the first command nothing is settled and the message is there. */
  lemma FetchedMidway(m: Mail, uid: nat, p: Proposal, s: Snapshot)
    requires p.approved == Some(s) && !s.Blocked() && m.uidvalidity == p.uidvalidity && uid in m.source
    ensures Midway(m, uid, p, s, Plan(p, s))
  {
    PlanShape(p, s);
  }

  lemma SendAims(s: System)
    requires BatchInv(s)
    ensures BatchInv(BatchStep(s, Send)) && Target(BatchStep(s, Send)) == Target(s)
  {
    if s.local.Acting? {
      var l := s.local;
      assert Items(BatchStep(s, Send).local) == Items(l);
      if l.left == [] {
        DoneRepeats(s.world.mail, l.item.uid, l.item.proposal, l.snapshot);
      } else {
        NextMidway(s.world.mail, l.item.uid, l.item.proposal, l.snapshot, l.left);
      }
    }
  }

  lemma MarkAims(s: System)
    requires BatchInv(s)
    ensures BatchInv(BatchStep(s, Mark)) && Target(BatchStep(s, Mark)) == Target(s)
  {
    if s.local.Result? {
      var l := s.local;
      assert Items(l)[0] == l.item && Items(l)[1..] == l.todo;
      TailHeld(s.world.rows, Items(l), l.result, l.error);
    }
  }

  lemma CloseAims(s: System)
    requires BatchInv(s)
    ensures BatchInv(BatchStep(s, Close)) && Target(BatchStep(s, Close)) == Target(s)
  {
  }

  lemma CrashActingAims(s: System)
    requires BatchInv(s) && s.local.Acting?
    ensures Near(Target(s), FinishAll(Outcome(s.world.mail, s.world.rows)), Duplicated(s, Crash))
  {
    var l, o := s.local, Outcome(s.world.mail, s.world.rows);
    assert Items(l)[0] == l.item;
    HeadIsLeast(s.world.rows, Items(l));
    FinishHead(o, l.item.uid);
    StartOver(o, l.item.uid, l.snapshot, l.left);
    FinishNear(Outcome(PerformAll(o.mail, l.item.uid, l.left),
      MarkRow(o.rows, l.item.uid, if HasAction(l.item.proposal, l.snapshot) then Applied else Skipped, None)),
      ProcessRow(o, l.item.uid), Duplicated(s, Crash));
  }

  lemma CrashResultAims(s: System)
    requires BatchInv(s) && s.local.Result?
    ensures Near(Target(s), FinishAll(Outcome(s.world.mail, s.world.rows)), multiset{})
  {
    var l, o := s.local, Outcome(s.world.mail, s.world.rows);
    assert Items(l)[0] == l.item;
    HeadIsLeast(s.world.rows, Items(l));
    FinishHead(o, l.item.uid);
    FinishNear(Outcome(o.mail, MarkRow(o.rows, l.item.uid, l.result, l.error)), ProcessRow(o, l.item.uid), multiset{});
  }

  /** A crash changes where the run is bound for by one copy, if it falls in the window, and else not at all. */
  lemma CrashAims(s: System)
    requires BatchInv(s)
    ensures BatchInv(BatchStep(s, Crash)) && Near(Target(s), Target(BatchStep(s, Crash)), Duplicated(s, Crash))
  {
    assert Target(BatchStep(s, Crash)) == FinishAll(Outcome(s.world.mail, s.world.rows));
    if s.local.Acting? {
      CrashActingAims(s);
    } else if s.local.Result? {
      CrashResultAims(s);
    } else {
      NearItself(Target(s));
    }
  }

  lemma NearItself(o: Outcome)
    ensures Near(o, o, multiset{})
  {
  }

  lemma StepAims(s: System, step: Step)
    requires BatchInv(s) && Smooth(step)
    ensures BatchInv(BatchStep(s, step)) && Near(Target(s), Target(BatchStep(s, step)), Duplicated(s, step))
    ensures !step.Crash? ==> Target(BatchStep(s, step)) == Target(s)
  {
    match step
    case ReadBatch(items) => ReadAims(s, items);
    case Take => TakeAims(s);
    case Fetch => FetchAims(s);
    case Send => SendAims(s);
    case Mark => MarkAims(s);
    case Close => CloseAims(s);
    case Crash => CrashAims(s);
  }
}
