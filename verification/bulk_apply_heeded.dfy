/** When an exclusion is heeded: exactly when no batch holds the message and the message is not marked deleted. An
    expunge removes every marked message, so the move of another message takes it along. */
module BulkApplyHeeded {
  import opened Common
  import opened BulkRows
  import opened BulkApply
  import opened BulkApplySafety
  import opened BulkApplyPass
  import opened BulkApplyReplay
  import opened BulkApplyExpunge
  import opened BulkApplyPosition
  import opened BulkApplyExclusion
  import BulkApplyTermination

  // ---------------------------------------------------------------- an excluded message stays

  ghost predicate StaysExcluded(s: System, uid: nat, steps: seq<Step>) {
    var end := Exec(s, steps);
    && uid in end.world.rows && end.world.rows[uid].status == Excluded && NoNewEffect(s.trace, end.trace, uid)
  }

  /** The row stays excluded, no command is addressed to the message, and the message stays as it is. */
  ghost predicate Untouched(s: System, uid: nat, steps: seq<Step>)
    requires uid in s.world.mail.source
  {
    var end := Exec(s, steps);
    StaysExcluded(s, uid, steps) && uid in end.world.mail.source && end.world.mail.source[uid] == s.world.mail.source[uid]
  }

  /** Other users of the mailbox leave this message as it is. */
  predicate LeavesAlone(step: Step, uid: nat, message: Message) {
    step.MailboxChanges? ==> uid in step.mail.source && step.mail.source[uid] == message
  }

  predicate Marked(m: Mail, uid: nat) {
    uid in m.source && DELETED_FLAG in m.source[uid].flags
  }

  lemma StepLeavesMessage(s: System, step: Step, uid: nat)
    requires OutOfReach(s, uid) && uid in s.world.mail.source && !Marked(s.world.mail, uid)
    requires LeavesAlone(step, uid, s.world.mail.source[uid])
    ensures var m' := Apply(s, step).world.mail; uid in m'.source && m'.source[uid] == s.world.mail.source[uid]
  {
    if SendsCommand(s, step) {
      assert Items(s.local)[0] == s.local.item;
      SourceAfter(s.world.mail, s.local.item.uid, s.local.left[0], uid);
    }
  }

  /** A message excluded before a batch reads it, and not marked deleted, is left exactly as it is. */
  lemma {:induction false} ExcludedUntouched(s: System, steps: seq<Step>, uid: nat)
    requires OutOfReach(s, uid) && uid in s.world.mail.source && !Marked(s.world.mail, uid)
    requires forall step <- steps :: LeavesAlone(step, uid, s.world.mail.source[uid])
    ensures Untouched(s, uid, steps)
    decreases |steps|
  {
    ExcludedInTime(s, steps, uid);
    if steps != [] {
      StepLeavesMessage(s, steps[0], uid);
      StepLeavesOutOfReach(s, steps[0], uid);
      ExcludedUntouched(Apply(s, steps[0]), steps[1..], uid);
    }
  }

  // ---------------------------------------------------------------- a move expunges every marked message

  lemma {:induction false} PerformConcat(m: Mail, uid: nat, a: seq<Command>, b: seq<Command>)
    ensures PerformAll(m, uid, a + b) == PerformAll(PerformAll(m, uid, a), uid, b)
    decreases |a|
  {
    if a == [] {
      assert a + b == b;
    } else {
      assert (a + b)[1..] == a[1..] + b;
      PerformConcat(Perform(m, uid, a[0]), uid, a[1..], b);
    }
  }

  /** Marks are never taken away, and messages never return. */
  lemma {:induction false} MarkStays(m: Mail, uid: nat, cs: seq<Command>, other: nat)
    requires other in m.source ==> Marked(m, other)
    ensures var m' := PerformAll(m, uid, cs); other in m'.source ==> Marked(m', other)
    decreases |cs|
  {
    if cs != [] {
      SourceAfter(m, uid, cs[0], other);
      MarkStays(Perform(m, uid, cs[0]), uid, cs[1..], other);
    }
  }

  lemma PlanEnds(p: Proposal, s: Snapshot)
    requires HasMove(p, s)
    ensures var plan := Plan(p, s);
      && |plan| > 4
      && plan[..|plan| - 2] + [AddFlags({DELETED_FLAG})] == plan[..|plan| - 1]
      && plan[..|plan| - 1] + [Expunge] == plan
      && forall i :: 0 <= i < |plan| - 1 ==> !plan[i].Expunge?
  {
    var plan := Plan(p, s);
    PlanShape(p, s);
    PlanLength(p, s);
    var tail := plan[|plan| - 4..];
    assert plan[|plan| - 4] == tail[0] && plan[|plan| - 3] == tail[1] && plan[|plan| - 2] == tail[2] && plan[|plan| - 1] == tail[3];
  }

  lemma ExpungeRemoves(m: Mail, uid: nat, other: nat)
    requires other in m.source ==> Marked(m, other)
    ensures other !in PerformAll(m, uid, [Expunge]).source
  {
    SourceAfter(m, uid, Expunge, other);
    assert PerformAll(m, uid, [Expunge]) == PerformAll(Perform(m, uid, Expunge), uid, []);
  }

  lemma PlanExpunges(m: Mail, uid: nat, p: Proposal, s: Snapshot, other: nat)
    requires HasMove(p, s) && Marked(m, other)
    ensures other !in PerformAll(m, uid, Plan(p, s)).source
  {
    var before := Plan(p, s)[..|Plan(p, s)| - 1];
    PlanEnds(p, s);
    PerformConcat(m, uid, before, [Expunge]);
    MarkStays(m, uid, before, other);
    ExpungeRemoves(PerformAll(m, uid, before), uid, other);
  }

  predicate Movable(m: Mail, item: Item) {
    && item.proposal.approved.Some? && !item.proposal.approved.value.Blocked()
    && HasMove(item.proposal, item.proposal.approved.value)
    && m.uidvalidity == item.proposal.uidvalidity && item.uid in m.source
  }

  /** Moving the first message of a batch removes every message marked deleted, whatever became of its proposal, if
      it ever had one. */
  lemma MoveTakesMarked(s: System, items: seq<Item>, other: nat) returns (steps: seq<Step>)
    requires s.local.Idle? && s.world.job.Some? && s.world.job.value.state == Running
    requires IsNextBatch(s.world.rows, s.world.job.value.batchSize, items) && items != []
    requires Movable(s.world.mail, items[0]) && Marked(s.world.mail, other)
    ensures forall step <- steps :: GoesOn(step)
    ensures other !in Exec(s, steps).world.mail.source
  {
    TakesUp(s, items);
    var held := Exec(s, TakeUp(items));
    var sends := Sends(|held.local.left| + 1);
    SendAll(held);
    ExecConcat(s, TakeUp(items), sends);
    PlanExpunges(s.world.mail, items[0].uid, items[0].proposal, items[0].proposal.approved.value, other);
    steps := TakeUp(items) + sends;
  }

  // ---------------------------------------------------------------- some run removes a marked message

  lemma ExecOne(s: System, step: Step)
    ensures Exec(s, [step]) == Apply(s, step)
  {
    assert Exec(Apply(s, step), []) == Apply(s, step);
  }

  /** The message in hand gets a result without a command. */
  lemma Settles(s: System) returns (steps: seq<Step>, result: Status, error: Option<Reason>)
    requires s.local.Fetching? || (s.local.Result? && IsResult(s.local.result))
    ensures (forall step <- steps :: step.ByBatch()) && IsResult(result)
    ensures Exec(s, steps) == s.(local := Result(s.local.item, result, error, s.local.todo))
  {
    if s.local.Fetching? {
      steps, result, error := [ProviderFails], Failed, Some(ProviderError);
      ExecOne(s, ProviderFails);
    } else {
      steps, result, error := [], s.local.result, s.local.error;
    }
  }

  lemma MarksAndCrashes(s: System)
    requires s.local.Result? && s.local.item.uid in s.world.rows && s.world.job.Some?
    ensures Exec(s, [Mark, Crash]) == s.(local := Idle, world := s.world.(
      rows := MarkRow(s.world.rows, s.local.item.uid, s.local.result, s.local.error),
      job := Some(CountResult(s.world.job.value, s.local.result))))
  {
    ExecTwo(s, Mark, Crash);
  }

  lemma ReadsAndTakes(s: System, items: seq<Item>)
    requires s.local.Idle? && s.world.job.Some? && s.world.job.value.state == Running
    requires IsNextBatch(s.world.rows, s.world.job.value.batchSize, items) && items != []
    ensures Exec(s, [ReadBatch(items), Take]) == TakeItem(s, items[0], items[1..])
  {
    ExecTwo(s, ReadBatch(items), Take);
  }

  /** The first queued message gets a result without a command, and the worker crashes. */
  lemma DropHead(s: System, items: seq<Item>) returns (steps: seq<Step>, result: Status, error: Option<Reason>)
    requires s.local.Idle? && s.world.job.Some? && s.world.job.value.state == Running
    requires IsNextBatch(s.world.rows, s.world.job.value.batchSize, items) && items != []
    ensures (forall step <- steps :: step.ByBatch()) && IsResult(result) && items[0].uid in s.world.rows
    ensures var end := Exec(s, steps);
      && end.local.Idle? && end.world.mail == s.world.mail && end.world.job.Some?
      && end.world.job.value.state == Running && end.world.job.value.batchSize == s.world.job.value.batchSize
      && end.world.rows == MarkRow(s.world.rows, items[0].uid, result, error)
  {
    ReadsAndTakes(s, items);
    var taken := TakeItem(s, items[0], items[1..]);
    var settle;
    settle, result, error := Settles(taken);
    var settled := taken.(local := Result(items[0], result, error, items[1..]));
    MarksAndCrashes(settled);
    ExecConcat(taken, settle, [Mark, Crash]);
    ExecConcat(s, [ReadBatch(items), Take], settle + [Mark, Crash]);
    steps := [ReadBatch(items), Take] + (settle + [Mark, Crash]);
  }

  lemma NextIsLeast(rows: Rows, size: nat, items: seq<Item>)
    requires IsNextBatch(rows, size, items) && size > 0 && Queue(rows) != {}
    ensures items != [] && IsLeast(items[0].uid, Queue(rows))
  {
    var uid :| uid in Queue(rows);
    assert items == [] ==> uid !in Uids(items);
    HeadIsLeast(rows, items);
  }

  /** All queued messages but the last get a result. */
  lemma {:induction false} DrainTo(s: System, last: nat) returns (steps: seq<Step>)
    requires s.local.Idle? && s.world.job.Some? && s.world.job.value.state == Running && s.world.job.value.batchSize > 0
    requires last in Queue(s.world.rows) && forall uid <- Queue(s.world.rows) :: uid <= last
    ensures forall step <- steps :: step.ByBatch()
    ensures var end := Exec(s, steps);
      && end.local.Idle? && end.world.mail == s.world.mail && end.world.job.Some?
      && end.world.job.value.state == Running && end.world.job.value.batchSize == s.world.job.value.batchSize
      && last in end.world.rows && end.world.rows[last] == s.world.rows[last] && Queue(end.world.rows) == {last}
    decreases |Queue(s.world.rows)|
  {
    if Queue(s.world.rows) == {last} {
      steps := [];
    } else {
      BulkApplyTermination.NextBatchExists(s.world.rows, s.world.job.value.batchSize);
      var items: seq<Item> :| IsNextBatch(s.world.rows, s.world.job.value.batchSize, items);
      NextIsLeast(s.world.rows, s.world.job.value.batchSize, items);
      var earlier :| earlier in Queue(s.world.rows) && earlier != last;
      var first, result, error := DropHead(s, items);
      MarkShrinks(s.world.rows, items[0].uid, result, error);
      var rest := DrainTo(Exec(s, first), last);
      ExecConcat(s, first, rest);
      steps := first + rest;
    }
  }

  lemma Above(uids: set<nat>) returns (bound: nat)
    ensures forall uid <- uids :: uid < bound
  {
    if uids == {} {
      bound := 0;
    } else {
      var uid :| uid in uids;
      var b := Above(uids - {uid});
      bound := if b <= uid then uid + 1 else b;
      forall u <- uids ensures u < bound { assert u == uid || u in uids - {uid}; }
    }
  }

  const MOVE: Snapshot := Snapshot(map[], "a", "", [], [], true, false, false, false)

  function Delivered(m: Mail, uid: nat): Mail {
    m.(source := m.source[uid := Message(0, {})], uidNext := if m.uidNext <= uid then uid + 1 else m.uidNext)
  }

  /** The worker crashes, the job resumes and a new message is delivered. */
  lemma Reopens(s: System, uid: nat) returns (steps: seq<Step>)
    requires s.world.job.Some? && s.world.job.value.state != Completed
    ensures forall step <- steps :: step.MailboxChanges? ==> step.mail == Delivered(s.world.mail, uid)
    ensures var end := Exec(s, steps);
      && end.local.Idle? && end.world.job == Some(s.world.job.value.(state := Running))
      && end.world.mail == Delivered(s.world.mail, uid) && end.world.rows == s.world.rows
  {
    steps := [Crash, SetJobState(Running), MailboxChanges(Delivered(s.world.mail, uid))];
    BulkApplyPosition.ExecThree(s, steps[0], steps[1], steps[2]);
  }

  /** And the new message is proposed for a move and approved. */
  lemma Invites(s: System, uid: nat) returns (steps: seq<Step>)
    requires s.world.job.Some? && s.world.job.value.state != Completed && uid !in s.world.rows
    ensures forall step <- steps :: step.MailboxChanges? ==> step.mail == Delivered(s.world.mail, uid)
    ensures var end := Exec(s, steps);
      && end.local.Idle? && end.world.job == Some(s.world.job.value.(state := Running))
      && end.world.mail == Delivered(s.world.mail, uid)
      && end.world.rows == s.world.rows[uid := ApprovedRow("", s.world.mail.uidvalidity, MOVE)]
  {
    var reopen := Reopens(s, uid);
    var decide := ProposeAndApprove(Exec(s, reopen), uid, "", s.world.mail.uidvalidity, MOVE);
    ExecConcat(s, reopen, decide);
    steps := reopen + decide;
  }

  /** From an open job with a last queued message to move, some continuation removes a marked one. */
  lemma DrainAndMove(s: System, last: nat, uid: nat) returns (steps: seq<Step>)
    requires s.local.Idle? && s.world.job.Some? && s.world.job.value.state == Running && s.world.job.value.batchSize > 0
    requires last in Queue(s.world.rows) && forall u <- Queue(s.world.rows) :: u <= last
    requires Movable(s.world.mail, Item(last, s.world.rows[last])) && Marked(s.world.mail, uid)
    ensures forall step <- steps :: step.ByBatch()
    ensures uid !in Exec(s, steps).world.mail.source
  {
    var drain := DrainTo(s, last);
    var drained := Exec(s, drain);
    OnlyItem(drained.world.rows, last);
    var move := MoveTakesMarked(drained, [Item(last, drained.world.rows[last])], uid);
    ExecConcat(s, drain, move);
    steps := drain + move;
  }

  /** Whatever the state of an open job, some continuation removes a marked message. */
  lemma MarkedIsRemoved(s: System, uid: nat) returns (steps: seq<Step>)
    requires s.world.job.Some? && s.world.job.value.state != Completed && s.world.job.value.batchSize > 0
    requires Marked(s.world.mail, uid)
    ensures forall step <- steps :: LeavesAlone(step, uid, s.world.mail.source[uid])
    ensures uid !in Exec(s, steps).world.mail.source
  {
    var other := Above(s.world.rows.Keys + s.world.mail.source.Keys);
    var invite := Invites(s, other);
    var invited := Exec(s, invite);
    forall u <- Queue(invited.world.rows) ensures u <= other { assert u in s.world.rows.Keys || u == other; }
    var rest := DrainAndMove(invited, other, uid);
    ExecConcat(s, invite, rest);
    steps := invite + rest;
  }

  // ---------------------------------------------------------------- the exact condition

  /** While the job is open an exclusion is heeded, whatever happens next, if and only if no batch holds the message
      and it is not marked deleted. */
  lemma ExclusionHeededIff(s: System, uid: nat)
    requires ApprovalInv(s) && uid in s.world.rows && s.world.rows[uid].status == Excluded && uid in s.world.mail.source
    requires s.world.job.Some? && s.world.job.value.state != Completed && s.world.job.value.batchSize > 0
    ensures (forall steps | (forall step <- steps :: LeavesAlone(step, uid, s.world.mail.source[uid])) :: Untouched(s, uid, steps))
       <==> (forall i :: 0 <= i < |Items(s.local)| ==> Items(s.local)[i].uid != uid) && !Marked(s.world.mail, uid)
  {
    if exists i :: 0 <= i < |Items(s.local)| && Items(s.local)[i].uid == uid {
      var j :| 0 <= j < |Items(s.local)| && Items(s.local)[j].uid == uid;
      AbleIfKept(s);
      var steps := HeldIsOverwritten(s, j);
      assert !Untouched(s, uid, steps);
    } else if Marked(s.world.mail, uid) {
      var steps := MarkedIsRemoved(s, uid);
      assert !Untouched(s, uid, steps);
    } else {
      forall steps | forall step <- steps :: LeavesAlone(step, uid, s.world.mail.source[uid])
        ensures Untouched(s, uid, steps)
      {
        ExcludedUntouched(s, steps, uid);
      }
    }
  }

  // ---------------------------------------------------------------- the failing run

  /** Part of the plan is sent. */
  lemma {:induction false} SendSome(s: System, k: nat)
    requires s.local.Acting? && k <= |s.local.left|
    ensures var l, end := s.local, Exec(s, Sends(k));
      && end.world == s.world.(mail := PerformAll(s.world.mail, l.item.uid, l.left[..k]))
      && end.local == l.(left := l.left[k..])
    decreases k
  {
    if k > 0 {
      assert Sends(k)[1..] == Sends(k - 1) && s.local.left[..k][1..] == s.local.left[1..][..k - 1];
      SendSome(Apply(s, Send), k - 1);
    }
  }

  /** Without an expunge no message leaves. */
  lemma {:induction false} StaysWithout(m: Mail, uid: nat, cs: seq<Command>, other: nat)
    requires other in m.source && forall i :: 0 <= i < |cs| ==> !cs[i].Expunge?
    ensures other in PerformAll(m, uid, cs).source && PerformAll(m, uid, cs).uidvalidity == m.uidvalidity
    decreases |cs|
  {
    if cs != [] {
      SourceAfter(m, uid, cs[0], other);
      PerformKeepsValidity(m, uid, cs[0]);
      StaysWithout(Perform(m, uid, cs[0]), uid, cs[1..], other);
    }
  }

  /** Everything but the expunge of a move leaves the message marked in its place. */
  lemma AllButExpunge(m: Mail, uid: nat, p: Proposal, s: Snapshot, other: nat)
    requires HasMove(p, s) && uid in m.source && other in m.source
    ensures var m' := PerformAll(m, uid, Plan(p, s)[..|Plan(p, s)| - 1]);
      Marked(m', uid) && other in m'.source && m'.uidvalidity == m.uidvalidity
  {
    var plan := Plan(p, s);
    var before := plan[..|plan| - 2];
    PlanEnds(p, s);
    PerformConcat(m, uid, before, [AddFlags({DELETED_FLAG})]);
    StaysWithout(m, uid, before, uid);
    StaysWithout(m, uid, plan[..|plan| - 1], other);
    var m' := PerformAll(m, uid, before);
    assert PerformAll(m', uid, [AddFlags({DELETED_FLAG})]) == PerformAll(Perform(m', uid, AddFlags({DELETED_FLAG})), uid, []);
  }

  lemma BothApproved(a: nat, b: nat, p: Proposal, q: Proposal)
    requires a != b && p.status == Approved && q.status == Approved
    ensures var empty: Rows := map[]; empty[a := p][b := q] == map[a := p, b := q]
    ensures WithStatus(map[a := p, b := q], Approved) == {a, b}
  {
    assert WithStatus(map[a := p, b := q], Approved) == {a, b};
  }

  /** Two proposals approved, and the job that applies them. */
  lemma ApprovesTwo(mail: Mail, a: nat, b: nat, folder: string, forA: Snapshot, forB: Snapshot) returns (steps: seq<Step>)
    requires a < b && !forA.Blocked() && !forB.Blocked()
    ensures forall step <- steps :: !step.MailboxChanges?
    ensures var s := Exec(Start(mail), steps);
      var p, q := ApprovedRow(folder, mail.uidvalidity, forA), ApprovedRow(folder, mail.uidvalidity, forB);
      && s.world == World(map[a := p, b := q], Some(ApplyJob(Running, 2, 2, 0, 0, 0, 0, 0)), mail) && s.local == Idle
  {
    var decide := ProposesTwo(Start(mail), a, b, folder, mail.uidvalidity, forA, forB);
    BothApproved(a, b, ApprovedRow(folder, mail.uidvalidity, forA), ApprovedRow(folder, mail.uidvalidity, forB));
    var start := StartsJob(Exec(Start(mail), decide), 2, {a, b});
    ExecConcat(Start(mail), decide, start);
    steps := decide + start;
  }

  lemma ProposesTwo(s: System, a: nat, b: nat, folder: string, v: nat, forA: Snapshot, forB: Snapshot)
    returns (steps: seq<Step>)
    requires a != b && a !in s.world.rows && b !in s.world.rows && !forA.Blocked() && !forB.Blocked()
    ensures forall step <- steps :: step.Decides()
    ensures var s' := Exec(s, steps);
      && s'.world == s.world.(rows := s.world.rows[a := ApprovedRow(folder, v, forA)][b := ApprovedRow(folder, v, forB)])
      && s'.local == s.local
  {
    var first := ProposeAndApprove(s, a, folder, v, forA);
    var second := ProposeAndApprove(Exec(s, first), b, folder, v, forB);
    ExecConcat(s, first, second);
    steps := first + second;
  }

  lemma BothAreNext(rows: Rows, a: nat, b: nat)
    requires a < b && a in rows && b in rows && Queue(rows) == {a, b}
    ensures IsNextBatch(rows, 2, [Item(a, rows[a]), Item(b, rows[b])])
  {
    var items := [Item(a, rows[a]), Item(b, rows[b])];
    assert items[0].uid in Uids(items) && items[1].uid in Uids(items);
    forall uid <- rows | rows[uid].Queued() ensures uid in Uids(items) { assert uid in Queue(rows); }
  }

  ghost predicate TwoMoves(s: System, a: nat, b: nat) {
    && a < b && s.world.rows.Keys == {a, b} && s.local.Idle?
    && s.world.job.Some? && s.world.job.value.state == Running && s.world.job.value.batchSize == 2
    && forall uid <- s.world.rows :: s.world.rows[uid].status == Approved && Movable(s.world.mail, Item(uid, s.world.rows[uid]))
  }

  /** A move in hand is carried out up to its expunge. */
  lemma SendsAllButExpunge(s: System, other: nat) returns (steps: seq<Step>)
    requires s.local.Acting? && HasMove(s.local.item.proposal, s.local.snapshot)
    requires s.local.left == Plan(s.local.item.proposal, s.local.snapshot)
    requires s.local.item.uid in s.world.mail.source && other in s.world.mail.source
    ensures forall step <- steps :: step.ByBatch()
    ensures var end := Exec(s, steps);
      && end.world == s.world.(mail := end.world.mail) && end.world.mail.uidvalidity == s.world.mail.uidvalidity
      && Marked(end.world.mail, s.local.item.uid) && other in end.world.mail.source
  {
    var l := s.local;
    PlanEnds(l.item.proposal, l.snapshot);
    SendSome(s, |l.left| - 1);
    AllButExpunge(s.world.mail, l.item.uid, l.item.proposal, l.snapshot, other);
    steps := Sends(|l.left| - 1);
  }

  /** The first of two moves is carried out up to its expunge. */
  lemma AllButTheExpunge(s: System, a: nat, b: nat) returns (steps: seq<Step>)
    requires TwoMoves(s, a, b)
    ensures forall step <- steps :: step.ByBatch()
    ensures var end := Exec(s, steps);
      && end.world.job == s.world.job && end.world.rows == s.world.rows
      && Marked(end.world.mail, a) && b in end.world.mail.source && end.world.mail.uidvalidity == s.world.mail.uidvalidity
  {
    var rows := s.world.rows;
    var items := [Item(a, rows[a]), Item(b, rows[b])];
    assert Queue(rows) == {a, b};
    BothAreNext(rows, a, b);
    TakesUp(s, items);
    var held := Exec(s, TakeUp(items));
    var sends := SendsAllButExpunge(held, b);
    ExecConcat(s, TakeUp(items), sends);
    steps := TakeUp(items) + sends;
  }

  /** It crashes there and is then excluded. */
  lemma CrashedAndExcluded(s: System, a: nat, b: nat) returns (steps: seq<Step>)
    requires TwoMoves(s, a, b)
    ensures forall step <- steps :: !step.MailboxChanges?
    ensures var end := Exec(s, steps);
      && end.local.Idle? && end.world.job == s.world.job && Marked(end.world.mail, a) && b in end.world.mail.source
      && end.world.mail.uidvalidity == s.world.mail.uidvalidity
      && end.world.rows == s.world.rows[a := s.world.rows[a].(status := Excluded, approved := None)]
  {
    var first := AllButTheExpunge(s, a, b);
    var sent := Exec(s, first);
    ExecTwo(sent, Crash, Exclude(a));
    ExecConcat(s, first, [Crash, Exclude(a)]);
    steps := first + [Crash, Exclude(a)];
  }

  /** Two moves of one mailbox nobody else uses. The first is excluded when no batch holds it; the row stays
      excluded and no command is addressed to the message any more, and yet the batch that moves the second one
      removes it. */
  lemma ExcludedYetRemoved(mail: Mail, a: nat, b: nat, folder: string, forA: Snapshot, forB: Snapshot)
    returns (before: seq<Step>, after: seq<Step>)
    requires a < b && a in mail.source && b in mail.source && !forA.Blocked() && !forB.Blocked()
    requires HasMove(ApprovedRow(folder, mail.uidvalidity, forA), forA) && HasMove(ApprovedRow(folder, mail.uidvalidity, forB), forB)
    ensures (forall step <- before :: !step.MailboxChanges?) && (forall step <- after :: GoesOn(step))
    ensures var s := Exec(Start(mail), before);
      && OutOfReach(s, a) && a in s.world.mail.source
      && StaysExcluded(s, a, after) && a !in Exec(s, after).world.mail.source
  {
    var setup := ApprovesTwo(mail, a, b, folder, forA, forB);
    var s := Exec(Start(mail), setup);
    var crashed := CrashedAndExcluded(s, a, b);
    before := setup + crashed;
    ExecConcat(Start(mail), setup, crashed);
    var excluded := Exec(s, crashed);
    assert Queue(excluded.world.rows) == {b};
    OnlyItem(excluded.world.rows, b);
    after := MoveTakesMarked(excluded, [Item(b, excluded.world.rows[b])], a);
    ExcludedInTime(excluded, after, a);
  }
}
