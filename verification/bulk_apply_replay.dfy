/** Carrying out one message's plan, stopping after any command, and starting the message over. */
module BulkApplyReplay {
  import opened Common
  import opened BulkRows
  import opened BulkApply
  import opened BulkApplySafety
  import opened BulkApplyPass

  /** Commands already sent would change nothing if sent again. */
  ghost predicate Settled(m: Mail, uid: nat, plan: seq<Command>, left: seq<Command>) {
    forall i :: 0 <= i < |plan| - |left| && (plan[i].AddFlags? || plan[i].EnsureFolder?) ==> Perform(m, uid, plan[i]) == m
  }

  /** Processing the message again would leave the mailbox alone and record the same, or skipped for applied. */
  predicate Repeats(again: Processed, m: Mail, result: Status, error: Option<Reason>) {
    && again.mail == m && IsResult(result)
    && ((again.result == result && again.error == error)
        || (result == Applied && error == None && again.result == Skipped && again.error == None))
  }

  /** What is known of the mailbox while a plan is being carried out. */
  ghost predicate Midway(m: Mail, uid: nat, p: Proposal, s: Snapshot, left: seq<Command>) {
    && p.approved == Some(s) && !s.Blocked() && m.uidvalidity == p.uidvalidity
    && IsSuffix(left, Plan(p, s)) && Settled(m, uid, Plan(p, s), left)
    && (HasMove(p, s) && left == [] <==> uid !in m.source)
  }

  // ---------------------------------------------------------------- the plan

  lemma PlanShape(p: Proposal, s: Snapshot)
    ensures var plan := Plan(p, s);
      && (!HasMove(p, s) ==> forall c <- plan :: c.AddFlags?)
      && (HasMove(p, s) ==>
            && 4 <= |plan|
            && plan[|plan| - 4..] == [EnsureFolder(s.folder), Copy(s.folder), AddFlags({DELETED_FLAG}), Expunge]
            && forall i :: 0 <= i < |plan| - 4 ==> plan[i].AddFlags?)
  {
    var plan := Plan(p, s);
    if HasMove(p, s) {
      var tail := [EnsureFolder(s.folder), Copy(s.folder), AddFlags({DELETED_FLAG}), Expunge];
      var head := (if TagFlags(s.Tags()) != {} then [AddFlags(TagFlags(s.Tags()))] else []) + [AddFlags({PROCESSED_FLAG})];
      assert plan == head + tail;
    }
  }

  /** Sending settled commands changes nothing. */
  lemma {:induction false} SkipSettled(m: Mail, uid: nat, done: seq<Command>, left: seq<Command>)
    requires forall c <- done :: Perform(m, uid, c) == m
    ensures PerformAll(m, uid, done + left) == PerformAll(m, uid, left)
    decreases |done|
  {
    if done == [] {
      assert done + left == left;
    } else {
      assert (done + left)[1..] == done[1..] + left;
      SkipSettled(m, uid, done[1..], left);
    }
  }

  /** A command settles itself and keeps earlier ones settled. */
  lemma SettlesMore(m: Mail, uid: nat, c: Command, d: Command)
    requires c.AddFlags? || c.EnsureFolder?
    requires Perform(m, uid, c) == m || c == d
    ensures Perform(Perform(m, uid, d), uid, c) == Perform(m, uid, d)
  {
    if c.AddFlags? {
      var m' := Perform(m, uid, d);
      if uid in m'.source {
        assert c.flags <= m'.source[uid].flags by {
          if c != d { assert Perform(m, uid, c).source[uid].flags == m.source[uid].flags + c.flags; }
        }
        assert m'.source[uid].flags + c.flags == m'.source[uid].flags;
        assert m'.source[uid := m'.source[uid]] == m'.source;
      }
    }
  }

  // ---------------------------------------------------------------- stopping inside a plan

  lemma ReplayOutsideWindow(m: Mail, uid: nat, p: Proposal, s: Snapshot, left: seq<Command>)
    requires Midway(m, uid, p, s, left) && uid in m.source && !(HasMove(p, s) && |left| <= 2)
    ensures PerformAll(m, uid, Plan(p, s)) == PerformAll(m, uid, left)
  {
    var plan := Plan(p, s);
    var done := plan[..|plan| - |left|];
    PlanShape(p, s);
    forall c <- done ensures Perform(m, uid, c) == m {
      var i :| 0 <= i < |done| && done[i] == c;
      assert plan[i] == c;
      if HasMove(p, s) && i == |plan| - 4 { assert c == plan[|plan| - 4..][0]; }
    }
    assert plan == done + left;
    SkipSettled(m, uid, done, left);
  }

  lemma CopyNear(m: Mail, uid: nat, folder: string)
    requires uid in m.source && folder in m.folders
    ensures NearMail(m, Perform(m, uid, Copy(folder)), multiset{Extra(folder, m.source[uid])})
  {
    forall f ensures Filed(Perform(m, uid, Copy(folder)), f) == Filed(m, f) + Appended(m, uid, Copy(folder), f) {
      FiledAfter(m, uid, Copy(folder), f);
    }
  }

  const FINISH: seq<Command> := [AddFlags({DELETED_FLAG}), Expunge]

  /** Inside the window what is left amounts to the last two commands, and starting over to one more copy before
      them. */
  lemma WindowPlans(m: Mail, uid: nat, p: Proposal, s: Snapshot, left: seq<Command>)
    requires Midway(m, uid, p, s, left) && uid in m.source && HasMove(p, s) && 1 <= |left| <= 2
    ensures s.folder in m.folders && PerformAll(m, uid, left) == PerformAll(m, uid, FINISH)
    ensures PerformAll(m, uid, Plan(p, s)) == PerformAll(Perform(m, uid, Copy(s.folder)), uid, FINISH)
  {
    var plan := Plan(p, s);
    var n := |plan|;
    PlanShape(p, s);
    var tail := plan[n - 4..];
    assert plan[n - 4] == tail[0] && plan[n - 3] == tail[1] && plan[n - 2] == tail[2] && plan[n - 1] == tail[3];
    var before := plan[..n - 3];
    assert plan == before + ([Copy(s.folder)] + FINISH);
    forall c <- before ensures Perform(m, uid, c) == m {
      var i :| 0 <= i < |before| && before[i] == c;
      assert plan[i] == c;
    }
    SkipSettled(m, uid, before, [Copy(s.folder)] + FINISH);
    var copied := Perform(m, uid, Copy(s.folder));
    assert PerformAll(m, uid, [Copy(s.folder)] + FINISH) == PerformAll(copied, uid, FINISH) by {
      assert ([Copy(s.folder)] + FINISH)[1..] == FINISH;
    }
    assert Perform(m, uid, EnsureFolder(s.folder)) == m by { assert Perform(m, uid, plan[n - 4]) == m; }
    assert s.folder in m.folders;
    if |left| == 1 {
      assert FINISH == [FINISH[0]] + left;
      assert Perform(m, uid, plan[n - 2]) == m;
      SkipSettled(m, uid, [FINISH[0]], left);
    } else {
      assert FINISH == left;
    }
  }

  lemma ReplayInsideWindow(m: Mail, uid: nat, p: Proposal, s: Snapshot, left: seq<Command>)
    requires Midway(m, uid, p, s, left) && uid in m.source && HasMove(p, s) && 1 <= |left| <= 2
    ensures NearMail(PerformAll(m, uid, left), PerformAll(m, uid, Plan(p, s)), multiset{Extra(s.folder, m.source[uid])})
  {
    WindowPlans(m, uid, p, s, left);
    CopyNear(m, uid, s.folder);
    PerformAllNear(m, Perform(m, uid, Copy(s.folder)), multiset{Extra(s.folder, m.source[uid])}, uid, FINISH);
  }

  /** Between copy and expunge the message has its tags and the processed mark, and is marked deleted before the
      expunge. */
  lemma WindowFlags(m: Mail, uid: nat, p: Proposal, s: Snapshot, left: seq<Command>)
    requires Midway(m, uid, p, s, left) && HasMove(p, s) && 1 <= |left| <= 2
    ensures uid in m.source && TagFlags(s.Tags()) + {PROCESSED_FLAG} <= m.source[uid].flags
    ensures left == [Expunge] ==> DELETED_FLAG in m.source[uid].flags
  {
    var plan := Plan(p, s);
    var n := |plan|;
    PlanShape(p, s);
    var tail := plan[n - 4..];
    assert plan[n - 4] == tail[0] && plan[n - 2] == tail[2];
    assert plan[n - 5] == AddFlags({PROCESSED_FLAG});
    SettledFlags(m, uid, plan, left, n - 5);
    if TagFlags(s.Tags()) != {} { SettledFlags(m, uid, plan, left, 0); }
    if left == [Expunge] { SettledFlags(m, uid, plan, left, n - 2); }
  }

  lemma SettledFlags(m: Mail, uid: nat, plan: seq<Command>, left: seq<Command>, i: nat)
    requires Settled(m, uid, plan, left) && uid in m.source && i < |plan| - |left| && plan[i].AddFlags?
    ensures plan[i].flags <= m.source[uid].flags
  {
    assert Perform(m, uid, plan[i]).source[uid].flags == m.source[uid].flags + plan[i].flags;
  }

  /** Stopping midway and starting the message over. */
  lemma StartOver(o: Outcome, uid: nat, s: Snapshot, left: seq<Command>)
    requires uid in Queue(o.rows) && Midway(o.mail, uid, o.rows[uid], s, left)
    ensures var p := o.rows[uid];
      Near(Outcome(PerformAll(o.mail, uid, left), MarkRow(o.rows, uid, if HasAction(p, s) then Applied else Skipped, None)),
           ProcessRow(o, uid),
           if HasMove(p, s) && 1 <= |left| <= 2 && uid in o.mail.source
           then multiset{Extra(s.folder, o.mail.source[uid])} else multiset{})
  {
    var p := o.rows[uid];
    if uid in o.mail.source {
      if HasMove(p, s) && |left| <= 2 {
        ReplayInsideWindow(o.mail, uid, p, s, left);
      } else {
        ReplayOutsideWindow(o.mail, uid, p, s, left);
      }
    }
  }

  /** After the last command the message repeats. */
  lemma DoneRepeats(m: Mail, uid: nat, p: Proposal, s: Snapshot)
    requires Midway(m, uid, p, s, [])
    ensures Repeats(Process(m, uid, p), m, if HasAction(p, s) then Applied else Skipped, None)
  {
    if uid in m.source { ReplayOutsideWindow(m, uid, p, s, []); }
  }

  /** What one command does to the source folder. */
  lemma SourceAfter(m: Mail, uid: nat, c: Command, other: nat)
    ensures var m' := Perform(m, uid, c);
      && (other in m'.source <==> other in m.source && !(c.Expunge? && DELETED_FLAG in m.source[other].flags))
      && (other in m'.source ==>
            && m'.source[other].content == m.source[other].content
            && m'.source[other].flags
                 == m.source[other].flags + (if c.AddFlags? && other == uid then c.flags else {}))
  {
    if other in m.source { assert m.source[other].flags + {} == m.source[other].flags; }
  }

  /** The expunge that ends a move removes the message; no other command does. */
  lemma NextInSource(m: Mail, uid: nat, p: Proposal, s: Snapshot, left: seq<Command>)
    requires Midway(m, uid, p, s, left) && left != []
    ensures left[0].Expunge? <==> HasMove(p, s) && left[1..] == []
    ensures left[0].Expunge? <==> uid !in Perform(m, uid, left[0]).source
  {
    LastIsExpunge(p, s, left);
    SourceAfter(m, uid, left[0], uid);
    if left[0].Expunge? {
      assert left == [left[0]];
      WindowFlags(m, uid, p, s, left);
    }
  }

  lemma LastIsExpunge(p: Proposal, s: Snapshot, left: seq<Command>)
    requires IsSuffix(left, Plan(p, s)) && left != []
    ensures left[0].Expunge? <==> HasMove(p, s) && |left| == 1
  {
    var plan := Plan(p, s);
    var i := |plan| - |left|;
    PlanShape(p, s);
    assert left[0] == plan[i];
    if !HasMove(p, s) {
      assert plan[i] in plan;
    } else if |left| > 4 {
      assert plan[i].AddFlags?;
    } else {
      assert plan[i] == plan[|plan| - 4..][4 - |left|];
    }
  }

  lemma NextMidway(m: Mail, uid: nat, p: Proposal, s: Snapshot, left: seq<Command>)
    requires Midway(m, uid, p, s, left) && left != []
    ensures Midway(Perform(m, uid, left[0]), uid, p, s, left[1..])
  {
    var plan, m' := Plan(p, s), Perform(m, uid, left[0]);
    var k := |plan| - |left|;
    NextInPlan(left, plan);
    NextInSource(m, uid, p, s, left);
    assert left[0] == plan[k];
    forall i | 0 <= i < k + 1 && (plan[i].AddFlags? || plan[i].EnsureFolder?) ensures Perform(m', uid, plan[i]) == m' {
      SettlesMore(m, uid, plan[i], left[0]);
    }
  }
}
