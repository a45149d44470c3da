/** Exclusions that come too late: what a batch already holds is applied all the same. */
module BulkApplyExclusion {
  import opened Common
  import opened BulkRows
  import opened BulkApply
  import opened BulkApplySafety

  /** Steps of the batch that are not crashes. */
  predicate GoesOn(step: Step) { step.ByBatch() && !step.Crash? }

  predicate InHand(l: Local) { l.Fetching? || l.Acting? || l.Result? }

  /** What the batch needs to record a result for each message it holds. */
  ghost predicate Able(s: System) {
    && s.world.job.Some? && (s.local.Result? ==> IsResult(s.local.result))
    && forall i :: 0 <= i < |Items(s.local)| ==> Items(s.local)[i].uid in s.world.rows
  }

  /** No command was sent, no row was added or dropped. */
  predicate Undisturbed(s: System, s': System) {
    && s'.world.mail == s.world.mail && s'.trace == s.trace && s'.world.job.Some?
    && s'.world.rows.Keys == s.world.rows.Keys
  }

  lemma ExecTwo(s: System, a: Step, b: Step)
    ensures Exec(s, [a, b]) == Apply(Apply(s, a), b)
  {
    assert [a, b][1..] == [b];
    assert Exec(Apply(s, a), [b]) == Exec(Apply(Apply(s, a), b), []);
  }

  /** The message in hand gets a result without a further command: its provider call raises. */
  lemma LetGo(s: System) returns (steps: seq<Step>)
    requires Able(s) && InHand(s.local)
    ensures forall step <- steps :: GoesOn(step)
    ensures var s' := Exec(s, steps);
      && s'.local == Batch(s.local.todo) && Undisturbed(s, s') && Able(s')
      && s.local.item.uid in s'.world.rows && IsResult(s'.world.rows[s.local.item.uid].status)
  {
    assert Items(s.local)[0] == s.local.item;
    assert forall i :: 0 <= i < |s.local.todo| ==> s.local.todo[i] == Items(s.local)[i + 1];
    if s.local.Result? {
      steps := [Mark];
      assert Exec(Apply(s, Mark), []) == Apply(s, Mark);
    } else {
      steps := [ProviderFails, Mark];
      ExecTwo(s, ProviderFails, Mark);
    }
  }

  lemma TakeFirst(s: System)
    requires Able(s) && s.local.Batch? && s.local.todo != []
    ensures var s' := Apply(s, Take);
      && InHand(s'.local) && s'.local.item == s.local.todo[0] && s'.local.todo == s.local.todo[1..]
      && s'.world == s.world && s'.trace == s.trace && Able(s')
  {
    assert [s.local.todo[0]] + s.local.todo[1..] == s.local.todo;
    assert Items(Apply(s, Take).local) == Items(s.local);
  }

  lemma PassOver(s: System) returns (steps: seq<Step>)
    requires Able(s) && s.local.Batch? && s.local.todo != []
    ensures forall step <- steps :: GoesOn(step)
    ensures var s' := Exec(s, steps);
      && s'.local == Batch(s.local.todo[1..]) && Undisturbed(s, s') && Able(s')
      && s.local.todo[0].uid in s'.world.rows && IsResult(s'.world.rows[s.local.todo[0].uid].status)
  {
    TakeFirst(s);
    var rest := LetGo(Apply(s, Take));
    steps := [Take] + rest;
    assert steps[1..] == rest;
  }

  /** The batch can come to any message it holds, leaving the mailbox alone on the way. */
  lemma {:induction false} ComeTo(s: System, j: nat) returns (steps: seq<Step>)
    requires Able(s) && j < |Items(s.local)| && (InHand(s.local) ==> j > 0)
    ensures forall step <- steps :: GoesOn(step)
    ensures Exec(s, steps).local == Batch(Items(s.local)[j..]) && Undisturbed(s, Exec(s, steps)) && Able(Exec(s, steps))
    decreases j
  {
    if InHand(s.local) {
      var first := LetGo(s);
      var s' := Exec(s, first);
      assert Items(s'.local) == Items(s.local)[1..];
      var rest := ComeTo(s', j - 1);
      assert Items(s.local)[1..][j - 1..] == Items(s.local)[j..];
      steps := first + rest;
      ExecConcat(s, first, rest);
    } else if j == 0 {
      steps := [];
      assert s.local.todo[0..] == s.local.todo;
    } else {
      var first := PassOver(s);
      var s' := Exec(s, first);
      var rest := ComeTo(s', j - 1);
      assert s.local.todo[1..][j - 1..] == s.local.todo[j..];
      steps := first + rest;
      ExecConcat(s, first, rest);
    }
  }

  // ---------------------------------------------------------------- the held message is applied

  /** From a message whose commands are being sent to its committed result. */
  lemma SendAndMark(s: System)
    requires Able(s) && s.local.Acting? && HasAction(s.local.item.proposal, s.local.snapshot)
    ensures var l, uid := s.local, s.local.item.uid;
      var end := Exec(s, Sends(|l.left| + 1) + [Mark]);
      && end.trace == s.trace + Sent(l.item, l.snapshot, l.seen, s.world.mail.uidvalidity, l.left)
      && uid in end.world.rows && end.world.rows[uid].status == Applied && end.world.mail == PerformAll(s.world.mail, uid, l.left)
  {
    assert Items(s.local)[0] == s.local.item;
    SendAll(s);
    ExecConcat(s, Sends(|s.local.left| + 1), [Mark]);
    var sent := Exec(s, Sends(|s.local.left| + 1));
    assert Exec(Apply(sent, Mark), []) == Apply(sent, Mark);
  }

  /** The commands still to be sent for message `j` of the batch. */
  function Unsent(l: Local, j: nat, snapshot: Snapshot): seq<Command>
    requires j < |Items(l)|
  {
    if l.Acting? && j == 0 then l.left else Plan(Items(l)[j].proposal, snapshot)
  }

  lemma ApplyHeld(s: System, snapshot: Snapshot) returns (steps: seq<Step>)
    requires Able(s) && Items(s.local) != [] && !s.local.Result?
    requires var item := Items(s.local)[0];
      && item.proposal.approved == Some(snapshot) && !snapshot.Blocked() && HasAction(item.proposal, snapshot)
      && (s.local.Fetching? || s.local.Acting? ==> s.local.snapshot == snapshot)
      && (s.local.Acting? ==> s.local.seen == item.proposal.uidvalidity)
      && (!s.local.Acting? ==> s.world.mail.uidvalidity == item.proposal.uidvalidity && item.uid in s.world.mail.source)
    ensures forall step <- steps :: GoesOn(step)
    ensures var item, end := Items(s.local)[0], Exec(s, steps);
      && end.trace == s.trace + Sent(item, snapshot, item.proposal.uidvalidity, s.world.mail.uidvalidity, Unsent(s.local, 0, snapshot))
      && item.uid in end.world.rows && end.world.rows[item.uid].status == Applied
    decreases if s.local.Batch? then 2 else if s.local.Fetching? then 1 else 0
  {
    var item := Items(s.local)[0];
    if s.local.Acting? {
      SendAndMark(s);
      steps := Sends(|s.local.left| + 1) + [Mark];
    } else {
      var step := if s.local.Batch? then Take else Fetch;
      if s.local.Batch? { TakeFirst(s); }
      var s' := Apply(s, step);
      assert Items(s'.local)[0] == item;
      assert forall i :: 0 <= i < |Items(s'.local)| ==> Items(s'.local)[i] == Items(s.local)[i];
      var rest := ApplyHeld(s', snapshot);
      steps := [step] + rest;
      assert steps[1..] == rest;
    }
  }

  lemma AbleIfKept(s: System)
    requires ApprovalInv(s) && s.world.job.Some?
    ensures Able(s)
  {
    forall i | 0 <= i < |Items(s.local)| ensures Items(s.local)[i].uid in s.world.rows { assert ItemInv(s, Items(s.local)[i]); }
  }

  /** A message excluded while the batch holds it, in hand or still listed, can be applied all the same: a run of
      the batch without a crash sends every command its approved snapshot still calls for and ends with the row
      applied. */
  lemma ExcludedTooLate(s: System, j: nat) returns (steps: seq<Step>)
    requires ApprovalInv(s) && s.world.job.Some? && j < |Items(s.local)| && !(s.local.Result? && j == 0)
    requires var item := Items(s.local)[j];
      && item.uid in s.world.rows && s.world.rows[item.uid].status == Approved
      && item.proposal.approved.Some? && HasAction(item.proposal, item.proposal.approved.value)
      && (!(s.local.Acting? && j == 0) ==>
            s.world.mail.uidvalidity == item.proposal.uidvalidity && item.uid in s.world.mail.source)
    ensures forall step <- steps :: GoesOn(step)
    ensures var item := Items(s.local)[j];
      var excluded, snapshot := Apply(s, Exclude(item.uid)), item.proposal.approved.value;
      var end := Exec(excluded, steps);
      && item.uid in excluded.world.rows && excluded.world.rows[item.uid].status == Excluded
      && end.trace == s.trace + Sent(item, snapshot, item.proposal.uidvalidity, s.world.mail.uidvalidity, Unsent(s.local, j, snapshot))
      && item.uid in end.world.rows && end.world.rows[item.uid].status == Applied
  {
    var item := Items(s.local)[j];
    var snapshot := item.proposal.approved.value;
    assert ItemInv(s, item);
    AbleIfKept(s);
    var excluded := Apply(s, Exclude(item.uid));
    assert Able(excluded);
    if InHand(s.local) && j == 0 {
      assert s.local.item == item;
      steps := ApplyHeld(excluded, snapshot);
    } else {
      var first := ComeTo(excluded, j);
      var there := Exec(excluded, first);
      assert Items(there.local) == Items(s.local)[j..] && Items(there.local)[0] == item;
      var rest := ApplyHeld(there, snapshot);
      steps := first + rest;
      ExecConcat(excluded, first, rest);
    }
  }

  // ---------------------------------------------------------------- the row is overwritten

  lemma HeldIsOverwritten(s: System, j: nat) returns (steps: seq<Step>)
    requires Able(s) && j < |Items(s.local)|
    ensures forall step <- steps :: GoesOn(step)
    ensures var uid, end := Items(s.local)[j].uid, Exec(s, steps);
      uid in end.world.rows && end.world.rows[uid].status != Excluded
  {
    if InHand(s.local) && j == 0 {
      assert Items(s.local)[0] == s.local.item;
      steps := LetGo(s);
    } else {
      var first := ComeTo(s, j);
      var there := Exec(s, first);
      assert there.local.todo[0] == Items(s.local)[j];
      var rest := PassOver(there);
      steps := first + rest;
      ExecConcat(s, first, rest);
    }
  }
}
