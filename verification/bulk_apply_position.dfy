/** Whose message a command reaches. The fetch compares the mailbox's UIDVALIDITY with the proposal's; the commands
    that follow it do not look again. */
module BulkApplyPosition {
  import opened Common
  import opened BulkRows
  import opened BulkApply
  import opened BulkApplySafety

  /** The mailbox gets another UIDVALIDITY, so that its UIDs name other messages. */
  predicate Resets(s: System, step: Step) {
    step.MailboxChanges? && step.mail.uidvalidity != s.world.mail.uidvalidity
  }

  ghost predicate NeverReset(s: System, steps: seq<Step>)
    decreases |steps|
  {
    steps != [] ==> !Resets(s, steps[0]) && NeverReset(Apply(s, steps[0]), steps[1..])
  }

  /** A new UIDVALIDITY is greater than those before it (section 2.3.1.1 of RFC 3501). */
  ghost predicate NeverLowered(s: System, steps: seq<Step>)
    decreases |steps|
  {
    steps != [] ==>
      && (steps[0].MailboxChanges? ==> s.world.mail.uidvalidity <= steps[0].mail.uidvalidity)
      && NeverLowered(Apply(s, steps[0]), steps[1..])
  }

  lemma PerformKeepsValidity(m: Mail, uid: nat, c: Command)
    ensures Perform(m, uid, c).uidvalidity == m.uidvalidity
  {
  }

  lemma StepValidity(s: System, step: Step)
    ensures Apply(s, step).world.mail.uidvalidity
         == if step.MailboxChanges? then step.mail.uidvalidity else s.world.mail.uidvalidity
  {
    if step.Send? && s.local.Acting? && s.local.left != [] {
      PerformKeepsValidity(s.world.mail, s.local.item.uid, s.local.left[0]);
    }
  }

  lemma {:induction false} ValidityOverRun(s: System, steps: seq<Step>)
    requires NeverLowered(s, steps)
    ensures var before, after := s.world.mail.uidvalidity, Exec(s, steps).world.mail.uidvalidity;
      before <= after && (after == before <==> NeverReset(s, steps))
    decreases |steps|
  {
    if steps != [] {
      StepValidity(s, steps[0]);
      ValidityOverRun(Apply(s, steps[0]), steps[1..]);
    }
  }

  // ---------------------------------------------------------------- one message in hand

  /** The batch goes on with the message in its hands: no crash, no failing call, no result yet. */
  ghost predicate StaysInHand(s: System, steps: seq<Step>)
    decreases |steps|
  {
    s.local.Acting? && (steps != [] ==> StaysInHand(Apply(s, steps[0]), steps[1..]))
  }

  lemma StepInHand(s: System, step: Step)
    requires s.local.Acting? && Apply(s, step).local.Acting?
    ensures var l, l' := s.local, Apply(s, step).local; l'.item == l.item && l'.seen == l.seen && l'.snapshot == l.snapshot
  {
  }

  lemma {:induction false} SameInHand(s: System, steps: seq<Step>)
    requires StaysInHand(s, steps)
    ensures var l, l' := s.local, Exec(s, steps).local;
      l'.Acting? && l'.item == l.item && l'.seen == l.seen && l'.snapshot == l.snapshot
    decreases |steps|
  {
    if steps != [] {
      StepInHand(s, steps[0]);
      SameInHand(Apply(s, steps[0]), steps[1..]);
    }
  }

  /** A command reaches the mailbox its proposal was made for if and only if the mailbox was not reset since this
      message was fetched. */
  lemma ActsUnderProposalIff(s: System, steps: seq<Step>)
    requires ApprovalInv(s) && s.local.Fetching? && Apply(s, Fetch).local.Acting?
    requires StaysInHand(Apply(s, Fetch), steps) && NeverLowered(Apply(s, Fetch), steps)
    requires var l := Exec(Apply(s, Fetch), steps).local; l.Acting? && l.left != []
    ensures var before := Exec(Apply(s, Fetch), steps);
      var after := Apply(before, Send);
      && |after.trace| == |before.trace| + 1
      && var e := after.trace[|before.trace|];
         && e.uid in after.world.rows
         && (e.uidvalidity == after.world.rows[e.uid].uidvalidity <==> NeverReset(Apply(s, Fetch), steps))
  {
    var fetched := Apply(s, Fetch);
    var before := Exec(fetched, steps);
    StepKeeps(s, Fetch);
    AppliedIsApproved(fetched, steps);
    SameInHand(fetched, steps);
    assert Items(before.local)[0] == before.local.item;
    assert ItemInv(before, before.local.item);
    ValidityOverRun(fetched, steps);
  }

  // ---------------------------------------------------------------- whole runs

  /** No reset falls while a message is in hand. */
  ghost predicate NoResetInHand(s: System, steps: seq<Step>)
    decreases |steps|
  {
    steps != [] ==> (s.local.Acting? ==> !Resets(s, steps[0])) && NoResetInHand(Apply(s, steps[0]), steps[1..])
  }

  ghost predicate PositionInv(s: System) {
    && (s.local.Acting? ==> s.local.seen == s.world.mail.uidvalidity)
    && forall i :: 0 <= i < |s.trace| ==> s.trace[i].uidvalidity == s.trace[i].seen
  }

  lemma StepKeepsPosition(s: System, step: Step)
    requires PositionInv(s) && (s.local.Acting? ==> !Resets(s, step))
    ensures PositionInv(Apply(s, step))
  {
    StepValidity(s, step);
  }

  lemma {:induction false} RunKeepsPosition(s: System, steps: seq<Step>)
    requires PositionInv(s) && NoResetInHand(s, steps)
    ensures PositionInv(Exec(s, steps))
    decreases |steps|
  {
    if steps != [] {
      StepKeepsPosition(s, steps[0]);
      RunKeepsPosition(Apply(s, steps[0]), steps[1..]);
    }
  }

  /** If no reset falls while a message is in hand, every command of the run reached the mailbox its proposal was
      made for. */
  lemma AllUnderTheirProposals(mail: Mail, steps: seq<Step>, i: nat)
    requires NoResetInHand(Start(mail), steps) && i < |Exec(Start(mail), steps).trace|
    ensures var end := Exec(Start(mail), steps);
      end.trace[i].uid in end.world.rows && end.trace[i].uidvalidity == end.world.rows[end.trace[i].uid].uidvalidity
  {
    RunKeepsPosition(Start(mail), steps);
    AppliedFromStart(mail, steps, i);
  }

  // ---------------------------------------------------------------- the failing run

  /** From an idle running job to the first message in hand. */
  function TakeUp(items: seq<Item>): seq<Step> { [ReadBatch(items), Take, Fetch] }

  lemma ExecThree(s: System, a: Step, b: Step, c: Step)
    ensures Exec(s, [a, b, c]) == Apply(Apply(Apply(s, a), b), c)
  {
    var s' := Apply(s, a);
    assert [a, b, c][1..] == [b, c] && [b, c][1..] == [c];
    assert Exec(Apply(s', b), [c]) == Exec(Apply(Apply(s', b), c), []);
  }

  lemma TakesUp(s: System, items: seq<Item>)
    requires s.local.Idle? && s.world.job.Some? && s.world.job.value.state == Running
    requires IsNextBatch(s.world.rows, s.world.job.value.batchSize, items) && items != []
    requires var item := items[0];
      && item.proposal.approved.Some? && !item.proposal.approved.value.Blocked()
      && s.world.mail.uidvalidity == item.proposal.uidvalidity && item.uid in s.world.mail.source
    ensures var item, snapshot := items[0], items[0].proposal.approved.value;
      Exec(s, TakeUp(items))
        == s.(local := Acting(item, snapshot, s.world.mail.uidvalidity, Plan(item.proposal, snapshot), items[1..]))
  {
    ExecThree(s, ReadBatch(items), Take, Fetch);
  }

  function ProposedRow(folder: string, uidvalidity: nat, snapshot: Snapshot): Proposal {
    Proposal(folder, uidvalidity, Proposed, snapshot, None, None, None)
  }

  function ApprovedRow(folder: string, uidvalidity: nat, snapshot: Snapshot): Proposal {
    Proposal(folder, uidvalidity, Approved, snapshot, None, Some(snapshot), None)
  }

  lemma Creates(s: System, uid: nat, folder: string, uidvalidity: nat, snapshot: Snapshot)
    requires uid !in s.world.rows
    ensures var s' := Apply(s, CreateRow(uid, folder, uidvalidity, snapshot));
      && s'.world == s.world.(rows := s.world.rows[uid := ProposedRow(folder, uidvalidity, snapshot)])
      && s'.local == s.local && s'.trace == s.trace
  {
  }

  lemma Approves(s: System, uid: nat, folder: string, uidvalidity: nat, snapshot: Snapshot)
    requires uid in s.world.rows && s.world.rows[uid] == ProposedRow(folder, uidvalidity, snapshot) && !snapshot.Blocked()
    ensures var s' := Apply(s, ApproveOne(uid));
      && s'.world == s.world.(rows := s.world.rows[uid := ApprovedRow(folder, uidvalidity, snapshot)])
      && s'.local == s.local && s'.trace == s.trace
  {
  }

  /** A message is proposed and approved. */
  lemma ProposeAndApprove(s: System, uid: nat, folder: string, uidvalidity: nat, snapshot: Snapshot)
    returns (steps: seq<Step>)
    requires uid !in s.world.rows && !snapshot.Blocked()
    ensures forall step <- steps :: step.Decides()
    ensures var s' := Exec(s, steps);
      && s'.world == s.world.(rows := s.world.rows[uid := ApprovedRow(folder, uidvalidity, snapshot)])
      && s'.local == s.local && s'.trace == s.trace
  {
    var created := Apply(s, CreateRow(uid, folder, uidvalidity, snapshot));
    Creates(s, uid, folder, uidvalidity, snapshot);
    Approves(created, uid, folder, uidvalidity, snapshot);
    steps := [CreateRow(uid, folder, uidvalidity, snapshot), ApproveOne(uid)];
    assert steps[1..] == [ApproveOne(uid)];
    assert Exec(created, [ApproveOne(uid)]) == Exec(Apply(created, ApproveOne(uid)), []);
  }

  /** The job that applies what is approved. */
  lemma StartsJob(s: System, size: nat, approved: set<nat>) returns (steps: seq<Step>)
    requires s.world.job.None? && size > 0 && approved != {} && WithStatus(s.world.rows, Approved) == approved
    ensures forall step <- steps :: !step.MailboxChanges?
    ensures var s' := Exec(s, steps);
      && s'.world == s.world.(job := Some(ApplyJob(Running, size, |approved|, 0, 0, 0, 0, 0)))
      && s'.local == s.local && s'.trace == s.trace
  {
    assert |approved| > 0;
    steps := [StartApply(size)];
    assert Exec(Apply(s, StartApply(size)), []) == Apply(s, StartApply(size));
  }

  lemma OnlyItem(rows: Rows, uid: nat)
    requires uid in rows && Queue(rows) == {uid}
    ensures forall size: nat :: size > 0 ==> IsNextBatch(rows, size, [Item(uid, rows[uid])])
  {
    var items := [Item(uid, rows[uid])];
    assert items[0].uid in Uids(items);
    forall other <- rows | rows[other].Queued() ensures other in Uids(items) { assert other in Queue(rows); }
  }

  /** One message approved, and in the hands of the batch. */
  lemma FirstInHand(mail: Mail, uid: nat, folder: string, snapshot: Snapshot) returns (steps: seq<Step>)
    requires uid in mail.source && !snapshot.Blocked()
    ensures forall step <- steps :: !step.MailboxChanges?
    ensures var s, p := Exec(Start(mail), steps), ApprovedRow(folder, mail.uidvalidity, snapshot);
      && s.local == Acting(Item(uid, p), snapshot, mail.uidvalidity, Plan(p, snapshot), [])
      && s.trace == [] && s.world.rows == map[uid := p] && s.world.mail == mail
  {
    var start := FirstStarted(mail, uid, folder, snapshot);
    var taken := TakesFirst(Exec(Start(mail), start), uid);
    ExecConcat(Start(mail), start, taken);
    steps := start + taken;
  }

  lemma OneApproved(uid: nat, p: Proposal)
    requires p.status == Approved
    ensures WithStatus(map[uid := p], Approved) == {uid} == Queue(map[uid := p])
  {
  }

  lemma FirstStarted(mail: Mail, uid: nat, folder: string, snapshot: Snapshot) returns (steps: seq<Step>)
    requires !snapshot.Blocked()
    ensures forall step <- steps :: !step.MailboxChanges?
    ensures var s, p := Exec(Start(mail), steps), ApprovedRow(folder, mail.uidvalidity, snapshot);
      && s.world == World(map[uid := p], Some(ApplyJob(Running, 1, 1, 0, 0, 0, 0, 0)), mail)
      && s.local == Idle && s.trace == [] && Queue(s.world.rows) == {uid}
  {
    var decide := ProposeAndApprove(Start(mail), uid, folder, mail.uidvalidity, snapshot);
    OneApproved(uid, ApprovedRow(folder, mail.uidvalidity, snapshot));
    var start := StartsJob(Exec(Start(mail), decide), 1, {uid});
    ExecConcat(Start(mail), decide, start);
    steps := decide + start;
  }

  lemma TakesFirst(s: System, uid: nat) returns (steps: seq<Step>)
    requires s.local.Idle? && s.world.job.Some? && s.world.job.value.state == Running && s.world.job.value.batchSize > 0
    requires uid in s.world.rows && Queue(s.world.rows) == {uid}
    requires var p := s.world.rows[uid];
      && p.approved.Some? && !p.approved.value.Blocked() && s.world.mail.uidvalidity == p.uidvalidity
      && uid in s.world.mail.source
    ensures forall step <- steps :: step.ByBatch()
    ensures var p := s.world.rows[uid];
      Exec(s, steps) == s.(local :=
        Acting(Item(uid, p), p.approved.value, s.world.mail.uidvalidity, Plan(p, p.approved.value), []))
  {
    OnlyItem(s.world.rows, uid);
    assert [Item(uid, s.world.rows[uid])][1..] == [];
    TakesUp(s, [Item(uid, s.world.rows[uid])]);
    steps := TakeUp([Item(uid, s.world.rows[uid])]);
  }

  lemma ResetThenSend(s: System, reset: Mail)
    requires s.local.Acting? && s.local.left != []
    ensures var l, end := s.local, Exec(s, [MailboxChanges(reset), Send]);
      && end.world == s.world.(mail := Perform(reset, l.item.uid, l.left[0]))
      && end.trace == s.trace + [Effect(l.item.uid, l.snapshot, l.seen, reset.uidvalidity, l.left[0])]
  {
    var changed := Apply(s, MailboxChanges(reset));
    assert [MailboxChanges(reset), Send][1..] == [Send];
    assert Exec(changed, [Send]) == Exec(Apply(changed, Send), []);
  }

  /** The mailbox is reset while a message is in hand: whatever message has the same UID afterwards gets the first
      command of the plan. */
  lemma ResetInHand(mail: Mail, uid: nat, folder: string, snapshot: Snapshot, reset: Mail) returns (before: seq<Step>)
    requires uid in mail.source && uid in reset.source && reset.uidvalidity != mail.uidvalidity
    requires !snapshot.Blocked() && Plan(ApprovedRow(folder, mail.uidvalidity, snapshot), snapshot) != []
    ensures forall step <- before :: !step.MailboxChanges?
    ensures var p := ApprovedRow(folder, mail.uidvalidity, snapshot);
      var end, first := Exec(Start(mail), before + [MailboxChanges(reset), Send]), Plan(p, snapshot)[0];
      && end.trace == [Effect(uid, snapshot, mail.uidvalidity, reset.uidvalidity, first)]
      && end.world.mail == Perform(reset, uid, first)
      && end.world.rows == map[uid := p] && p.uidvalidity != reset.uidvalidity
  {
    before := FirstInHand(mail, uid, folder, snapshot);
    ResetThenSend(Exec(Start(mail), before), reset);
    ExecConcat(Start(mail), before, [MailboxChanges(reset), Send]);
  }
}
