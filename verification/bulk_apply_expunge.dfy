/** What an expunge removes: every message of the source folder marked deleted, whoever marked it. While nobody else
    uses the mailbox no message is lost and none leaves its folder but by an approved move. */
module BulkApplyExpunge {
  import opened Common
  import opened BulkRows
  import opened BulkApply
  import opened BulkApplySafety
  import opened BulkApplyReplay

  predicate Expunges(s: System, step: Step) {
    step.Send? && s.local.Acting? && s.local.left != [] && s.local.left[0].Expunge?
  }

  /** A message leaves the source folder exactly when an expunge meets it marked deleted, or by another user. */
  lemma RemovedExactly(s: System, step: Step, uid: nat)
    requires uid in s.world.mail.source
    ensures uid !in Apply(s, step).world.mail.source
       <==> (Expunges(s, step) && DELETED_FLAG in s.world.mail.source[uid].flags)
            || (step.MailboxChanges? && uid !in step.mail.source)
  {
  }

  // ---------------------------------------------------------------- nothing is lost

  ghost predicate Holds(m: Mail, folder: string, content: nat) {
    folder in m.folders && exists i :: 0 <= i < |m.folders[folder]| && m.folders[folder][i].content == content
  }

  /** The row of this UID was approved with a move, for this UIDVALIDITY, and the folder approved holds the message. */
  ghost predicate MovedAsApproved(s: System, uid: nat, content: nat) {
    && uid in s.approvals && !s.approvals[uid].Blocked()
    && uid in s.world.rows && HasMove(s.world.rows[uid], s.approvals[uid])
    && s.world.rows[uid].uidvalidity == s.world.mail.uidvalidity
    && Holds(s.world.mail, s.approvals[uid].folder, content)
  }

  /** Each message of `first` is where it was, or was moved as approved; also if it is only marked deleted. */
  ghost predicate Accounted(s: System, first: Mail, uid: nat)
    requires uid in first.source
  {
    && (uid in s.world.mail.source ==> s.world.mail.source[uid].content == first.source[uid].content)
    && (uid !in s.world.mail.source || DELETED_FLAG in s.world.mail.source[uid].flags ==>
          MovedAsApproved(s, uid, first.source[uid].content))
  }

  ghost predicate MailInv(s: System, first: Mail) {
    && s.world.mail.uidvalidity == first.uidvalidity && s.world.mail.source.Keys <= first.source.Keys
    && forall uid <- first.source :: Accounted(s, first, uid)
  }

  /** What the message in hand still needs is there. */
  ghost predicate HandInv(l: Local, m: Mail) {
    l.Acting? ==>
      && l.item.proposal.uidvalidity == m.uidvalidity
      && (l.left != [] ==> l.item.uid in m.source)
      && (HasMove(l.item.proposal, l.snapshot) && |l.left| <= 3 ==> l.snapshot.folder in m.folders)
      && (HasMove(l.item.proposal, l.snapshot) && 1 <= |l.left| <= 2 ==>
            Holds(m, l.snapshot.folder, m.source[l.item.uid].content))
  }

  ghost predicate LossInv(s: System, first: Mail) {
    ApprovalInv(s) && MailInv(s, first) && HandInv(s.local, s.world.mail)
  }

  lemma TagsDoNotDelete(tags: seq<string>)
    ensures DELETED_FLAG !in TagFlags(tags) && DELETED_FLAG != PROCESSED_FLAG
  {
    forall tag ensures SafeTag(tag) != DELETED_FLAG { assert SafeTag(tag)[0] == 'M'; }
  }

  /** No flag of a plan but the one before its expunge marks the message deleted. */
  lemma FlagsFirst(p: Proposal, s: Snapshot, i: nat)
    requires i < |Plan(p, s)| && (HasMove(p, s) ==> i < |Plan(p, s)| - 4)
    ensures Plan(p, s)[i].AddFlags? && DELETED_FLAG !in Plan(p, s)[i].flags
  {
    TagsDoNotDelete(s.Tags());
  }

  /** Which command comes next is told by how many are left. */
  lemma NextCommand(p: Proposal, s: Snapshot, left: seq<Command>)
    requires IsSuffix(left, Plan(p, s)) && left != []
    ensures !HasMove(p, s) || |left| > 4 ==> left[0].AddFlags? && DELETED_FLAG !in left[0].flags
    ensures HasMove(p, s) && |left| <= 4 ==>
      left[0] == [Expunge, AddFlags({DELETED_FLAG}), Copy(s.folder), EnsureFolder(s.folder)][|left| - 1]
  {
    var i := |Plan(p, s)| - |left|;
    assert left[0] == Plan(p, s)[i];
    PlanShape(p, s);
    if HasMove(p, s) && |left| <= 4 {
      assert left[0] == Plan(p, s)[|Plan(p, s)| - 4..][4 - |left|];
    } else {
      FlagsFirst(p, s, i);
    }
  }

  /** Folders only grow. */
  lemma FoldersGrow(m: Mail, uid: nat, c: Command, folder: string, content: nat)
    ensures folder in m.folders ==> folder in Perform(m, uid, c).folders
    ensures Holds(m, folder, content) ==> Holds(Perform(m, uid, c), folder, content)
    ensures Perform(m, uid, c).uidvalidity == m.uidvalidity
  {
    if Holds(m, folder, content) {
      var m' := Perform(m, uid, c);
      var i :| 0 <= i < |m.folders[folder]| && m.folders[folder][i].content == content;
      assert m'.folders[folder][i].content == content;
    }
  }

  lemma CopyHolds(m: Mail, uid: nat, folder: string)
    requires uid in m.source && folder in m.folders
    ensures Holds(Perform(m, uid, Copy(folder)), folder, m.source[uid].content)
  {
    var m' := Perform(m, uid, Copy(folder));
    assert m'.folders[folder][|m.folders[folder]|] == m.source[uid];
  }

  lemma SendKeepsHand(s: System)
    requires s.local.Acting? && s.local.left != [] && HandInv(s.local, s.world.mail) && HoldInv(s.local)
    ensures HandInv(BatchStep(s, Send).local, BatchStep(s, Send).world.mail)
  {
    var l, m := s.local, s.world.mail;
    var c := l.left[0];
    NextCommand(l.item.proposal, l.snapshot, l.left);
    SourceAfter(m, l.item.uid, c, l.item.uid);
    FoldersGrow(m, l.item.uid, c, l.snapshot.folder, m.source[l.item.uid].content);
    if c.Copy? { CopyHolds(m, l.item.uid, c.folder); }
  }

  /** The message in hand is the only one a command marks deleted, and it has been copied by then. */
  lemma SendAccounts(s: System, first: Mail, uid: nat)
    requires LossInv(s, first) && s.local.Acting? && s.local.left != [] && uid in first.source
    ensures Accounted(BatchStep(s, Send), first, uid)
  {
    var l, m := s.local, s.world.mail;
    var s' := BatchStep(s, Send);
    var c := l.left[0];
    assert Accounted(s, first, uid);
    NextCommand(l.item.proposal, l.snapshot, l.left);
    SourceAfter(m, l.item.uid, c, uid);
    FoldersGrow(m, l.item.uid, c, l.snapshot.folder, first.source[uid].content);
    if uid in s.approvals { FoldersGrow(m, l.item.uid, c, s.approvals[uid].folder, first.source[uid].content); }
    if uid == l.item.uid && c == AddFlags({DELETED_FLAG}) {
      assert Items(l)[0] == l.item;
      assert ItemInv(s, l.item);
      assert MovedAsApproved(s', uid, first.source[uid].content);
    }
  }

  lemma SendKeepsMail(s: System, first: Mail)
    requires LossInv(s, first) && s.local.Acting? && s.local.left != []
    ensures MailInv(BatchStep(s, Send), first) && HandInv(BatchStep(s, Send).local, BatchStep(s, Send).world.mail)
  {
    SendKeepsHand(s);
    forall uid <- first.source ensures Accounted(BatchStep(s, Send), first, uid) { SendAccounts(s, first, uid); }
    forall uid <- BatchStep(s, Send).world.mail.source ensures uid in first.source {
      SourceAfter(s.world.mail, s.local.item.uid, s.local.left[0], uid);
    }
    FoldersGrow(s.world.mail, s.local.item.uid, s.local.left[0], "", 0);
  }

  /** Steps that leave the mailbox alone keep what is accounted for: approvals and positions stay. */
  lemma QuietKeepsMail(s: System, s': System, first: Mail)
    requires MailInv(s, first) && s'.world.mail == s.world.mail && Keeps(s, s')
    ensures MailInv(s', first)
  {
    forall uid <- first.source ensures Accounted(s', first, uid) { assert Accounted(s, first, uid); }
  }

  lemma FetchKeepsHand(s: System)
    requires HoldInv(s.local)
    ensures HandInv(BatchStep(s, Fetch).local, s.world.mail) || BatchStep(s, Fetch) == s
  {
    if s.local.Fetching? && BatchStep(s, Fetch).local.Acting? {
      var l := BatchStep(s, Fetch).local;
      PlanLength(l.item.proposal, l.snapshot);
    }
  }

  lemma PlanLength(p: Proposal, s: Snapshot)
    ensures HasMove(p, s) ==> |Plan(p, s)| > 4
  {
  }

  predicate SendsCommand(s: System, step: Step) { step.Send? && s.local.Acting? && s.local.left != [] }

  lemma QuietStep(s: System, step: Step)
    requires HoldInv(s.local) && HandInv(s.local, s.world.mail) && !step.MailboxChanges? && !SendsCommand(s, step)
    ensures Apply(s, step).world.mail == s.world.mail && HandInv(Apply(s, step).local, s.world.mail)
  {
    if step.Fetch? { FetchKeepsHand(s); }
  }

  lemma StepKeepsMail(s: System, step: Step, first: Mail)
    requires LossInv(s, first) && !step.MailboxChanges?
    ensures LossInv(Apply(s, step), first)
  {
    StepKeeps(s, step);
    if SendsCommand(s, step) {
      SendKeepsMail(s, first);
    } else {
      QuietStep(s, step);
      QuietKeepsMail(s, Apply(s, step), first);
    }
  }

  lemma {:induction false} RunKeepsMail(s: System, steps: seq<Step>, first: Mail)
    requires LossInv(s, first) && forall step <- steps :: !step.MailboxChanges?
    ensures LossInv(Exec(s, steps), first)
    decreases |steps|
  {
    if steps != [] {
      StepKeepsMail(s, steps[0], first);
      RunKeepsMail(Apply(s, steps[0]), steps[1..], first);
    }
  }

  /** From a mailbox in which nothing is marked deleted and which nobody else uses: whatever people decide, however
      calls fail and the worker crashes, each message is still in the source folder, or its row was approved with a
      move for this UIDVALIDITY and the folder approved holds it. None appears there. */
  lemma NothingLost(mail: Mail, steps: seq<Step>)
    requires forall uid <- mail.source :: DELETED_FLAG !in mail.source[uid].flags
    requires forall step <- steps :: !step.MailboxChanges?
    ensures var end := Exec(Start(mail), steps);
      && end.world.mail.source.Keys <= mail.source.Keys
      && forall uid <- mail.source ::
           if uid in end.world.mail.source then end.world.mail.source[uid].content == mail.source[uid].content
           else MovedAsApproved(end, uid, mail.source[uid].content)
  {
    assert LossInv(Start(mail), mail);
    RunKeepsMail(Start(mail), steps, mail);
    var end := Exec(Start(mail), steps);
    forall uid <- mail.source
      ensures if uid in end.world.mail.source then end.world.mail.source[uid].content == mail.source[uid].content
              else MovedAsApproved(end, uid, mail.source[uid].content)
    {
      assert Accounted(end, mail, uid);
    }
  }
}
