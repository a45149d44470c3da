/** Crash and restart of bulk apply. With provider calls that succeed, a run with crashes anywhere ends with
    the mailbox a single pass over the queue would leave, unless a crash falls between the copy of a move and
    its expunge: each such crash leaves exactly one more copy in the destination. */
module BulkApplyCrashes {
  import opened Common
  import opened BulkRows
  import opened BulkApply
  import opened BulkApplySafety
  import opened BulkApplyPass
  import opened BulkApplyReplay
  import opened BulkApplyConfluence

  // ---------------------------------------------------------------- whole runs

  ghost function Duplicates(s: System, steps: seq<Step>): multiset<Extra>
    decreases |steps|
  {
    if steps == [] then multiset{} else Duplicated(s, steps[0]) + Duplicates(Apply(s, steps[0]), steps[1..])
  }

  lemma {:induction false} RunAims(s: System, steps: seq<Step>)
    requires BatchInv(s) && forall step <- steps :: Smooth(step)
    ensures BatchInv(Exec(s, steps)) && Near(Target(s), Target(Exec(s, steps)), Duplicates(s, steps))
    ensures (forall step <- steps :: !step.Crash?) ==> Target(Exec(s, steps)) == Target(s)
    decreases |steps|
  {
    if steps != [] {
      var s' := Apply(s, steps[0]);
      StepAims(s, steps[0]);
      RunAims(s', steps[1..]);
      NearTransitive(Target(s), Target(s'), Target(Exec(s', steps[1..])), Duplicated(s, steps[0]), Duplicates(s', steps[1..]));
    }
  }

  /** Whatever the batch sizes and however often the worker crashes and restarts, once the queue is empty the
      source folder is the one a single uninterrupted pass leaves; so is every other folder, exactly when no
      crash fell between a copy and its expunge; and each such crash left one extra copy, of the message and with
      the flags it had at the crash. */
  lemma CrashRestart(s: System, steps: seq<Step>)
    requires s.world.job.Some? && s.local.Idle? && forall step <- steps :: Smooth(step)
    requires Exec(s, steps).local.Idle? && Queue(Exec(s, steps).world.rows) == {}
    ensures var pass, end := FinishAll(Outcome(s.world.mail, s.world.rows)), Exec(s, steps).world;
      && end.mail.source == pass.mail.source && NearRows(pass.rows, end.rows)
      && (forall f, message ::
            Filed(end.mail, f)[message] == Filed(pass.mail, f)[message] + Duplicates(s, steps)[Extra(f, message)])
      && (end.mail == pass.mail <==> Duplicates(s, steps) == multiset{})
      && ((forall step <- steps :: !step.Crash?) ==> end.rows == pass.rows)
  {
    RunAims(s, steps);
    var extra := Duplicates(s, steps);
    if extra != multiset{} {
      var e :| e in extra;
      assert Filed(Exec(s, steps).world.mail, e.folder)[e.message] > Filed(Target(s).mail, e.folder)[e.message];
    }
  }

  // ---------------------------------------------------------------- what is duplicated

  /** The message of this row, tagged and marked, in the folder its approval names. */
  predicate CopyOf(e: Extra, uid: nat, rows: Rows, m: Mail) {
    && uid in rows && rows[uid].approved.Some? && HasMove(rows[uid], rows[uid].approved.value)
    && e.folder == rows[uid].approved.value.folder
    && uid in m.source && e.message.content == m.source[uid].content
    && m.source[uid].flags + TagFlags(rows[uid].approved.value.Tags()) + {PROCESSED_FLAG} <= e.message.flags
  }

  /** A batch adds flags and removes messages; it rewrites neither contents nor approvals. */
  lemma OnlyGrows(s: System, step: Step, e: Extra, uid: nat)
    requires BatchInv(s) && Smooth(step) && CopyOf(e, uid, Apply(s, step).world.rows, Apply(s, step).world.mail)
    ensures CopyOf(e, uid, s.world.rows, s.world.mail)
  {
    var l := s.local;
    if step.Send? && l.Acting? && l.left != [] { SourceShrinks(s.world.mail, l.item.uid, l.left[0], uid); }
  }

  lemma WindowCopies(s: System, e: Extra)
    requires BatchInv(s) && e in Duplicated(s, Crash)
    ensures s.local.Acting? && CopyOf(e, s.local.item.uid, s.world.rows, s.world.mail)
  {
    var l := s.local;
    assert Items(l)[0] == l.item;
    WindowFlags(s.world.mail, l.item.uid, l.item.proposal, l.snapshot, l.left);
  }

  /** Whatever is duplicated in a run is the message of an approved move, with its tags and the processed mark. */
  lemma {:induction false} DuplicatesAreCopies(s: System, steps: seq<Step>, e: Extra) returns (uid: nat)
    requires BatchInv(s) && (forall step <- steps :: Smooth(step)) && e in Duplicates(s, steps)
    ensures CopyOf(e, uid, s.world.rows, s.world.mail)
    decreases |steps|
  {
    if e in Duplicated(s, steps[0]) {
      uid := s.local.item.uid;
      WindowCopies(s, e);
    } else {
      StepAims(s, steps[0]);
      uid := DuplicatesAreCopies(Apply(s, steps[0]), steps[1..], e);
      OnlyGrows(s, steps[0], e, uid);
    }
  }

  // ---------------------------------------------------------------- how often a message is moved

  function CopiesSent(trace: seq<Effect>, uid: nat): nat {
    if trace == [] then 0
    else
      var last := trace[|trace| - 1];
      CopiesSent(trace[..|trace| - 1], uid) + (if last.uid == uid && last.command.Copy? then 1 else 0)
  }

  /** A copy of this message may still be sent without a crash. */
  predicate MayCopy(s: System, uid: nat) {
    uid in s.world.mail.source
    && !(s.local.Acting? && s.local.item.uid == uid && HasMove(s.local.item.proposal, s.local.snapshot) && |s.local.left| <= 2)
  }

  function One(b: bool): nat { if b then 1 else 0 }

  ghost function WindowCrashes(s: System, steps: seq<Step>, uid: nat): nat
    decreases |steps|
  {
    if steps == [] then 0
    else One(steps[0].Crash? && InWindow(s.local) && s.local.item.uid == uid)
         + WindowCrashes(Apply(s, steps[0]), steps[1..], uid)
  }

  lemma CopyIsThirdLast(p: Proposal, s: Snapshot, left: seq<Command>)
    requires IsSuffix(left, Plan(p, s)) && left != []
    ensures left[0].Copy? <==> HasMove(p, s) && |left| == 3
  {
    var plan := Plan(p, s);
    var n := |plan|;
    PlanShape(p, s);
    assert left[0] == plan[n - |left|];
    if HasMove(p, s) {
      var tail := plan[n - 4..];
      assert plan[n - 4] == tail[0] && plan[n - 3] == tail[1] && plan[n - 2] == tail[2] && plan[n - 1] == tail[3];
    }
  }

  lemma SentCount(trace: seq<Effect>, e: Effect, uid: nat)
    ensures CopiesSent(trace + [e], uid) == CopiesSent(trace, uid) + One(e.uid == uid && e.command.Copy?)
  {
    assert (trace + [e])[..|trace|] == trace;
  }

  lemma SourceShrinks(m: Mail, uid: nat, c: Command, other: nat)
    ensures var m' := Perform(m, uid, c);
      other in m'.source ==>
        && other in m.source && m'.source[other].content == m.source[other].content
        && m.source[other].flags <= m'.source[other].flags
  {
  }

  lemma SendCopies(s: System, uid: nat)
    requires s.local.Acting? && Midway(s.world.mail, s.local.item.uid, s.local.item.proposal, s.local.snapshot, s.local.left)
    ensures var s' := BatchStep(s, Send);
      CopiesSent(s'.trace, uid) + One(MayCopy(s', uid)) <= CopiesSent(s.trace, uid) + One(MayCopy(s, uid))
  {
    var l := s.local;
    if l.left != [] {
      SentCount(s.trace, Effect(l.item.uid, l.snapshot, l.seen, s.world.mail.uidvalidity, l.left[0]), uid);
      CopyIsThirdLast(l.item.proposal, l.snapshot, l.left);
      SourceShrinks(s.world.mail, l.item.uid, l.left[0], uid);
    }
  }

  lemma StepCopies(s: System, step: Step, uid: nat)
    requires BatchInv(s) && Smooth(step)
    ensures var s' := BatchStep(s, step);
      CopiesSent(s'.trace, uid) + One(MayCopy(s', uid))
        <= CopiesSent(s.trace, uid) + One(MayCopy(s, uid)) + One(step.Crash? && InWindow(s.local) && s.local.item.uid == uid)
  {
    if step.Send? {
      if s.local.Acting? { SendCopies(s, uid); }
    }
  }

  lemma {:induction false} RunCopies(s: System, steps: seq<Step>, uid: nat)
    requires BatchInv(s) && forall step <- steps :: Smooth(step)
    ensures var end := Exec(s, steps);
      CopiesSent(end.trace, uid) + One(MayCopy(end, uid))
        <= CopiesSent(s.trace, uid) + One(MayCopy(s, uid)) + WindowCrashes(s, steps, uid)
    decreases |steps|
  {
    if steps != [] {
      StepAims(s, steps[0]);
      StepCopies(s, steps[0], uid);
      RunCopies(Apply(s, steps[0]), steps[1..], uid);
    }
  }

  /** Each message is moved at most once, but for one more time per crash between its copy and its expunge. */
  lemma MovedAtMostOnce(s: System, steps: seq<Step>, uid: nat)
    requires s.world.job.Some? && s.local.Idle? && forall step <- steps :: Smooth(step)
    ensures CopiesSent(Exec(s, steps).trace, uid) <= CopiesSent(s.trace, uid) + 1 + WindowCrashes(s, steps, uid)
  {
    RunCopies(s, steps, uid);
  }
}
