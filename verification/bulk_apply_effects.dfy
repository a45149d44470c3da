/** What applying a proposal does to the mailbox, said of the approved snapshot's fields: when it moves the message,
    what it leaves where, and with which flags. */
module BulkApplyEffects {
  import opened Common
  import opened BulkRows
  import opened BulkApply
  import opened BulkApplySafety
  import opened BulkApplyReplay
  import opened BulkApplyExpunge
  import opened BulkApplyHeeded
  import opened BulkApplyPosition
  import opened BulkApplyExclusion

  // ---------------------------------------------------------------- only approved moves move

  /** Commands that take a message elsewhere, or mark it for removal. */
  predicate Relocates(c: Command) {
    c.EnsureFolder? || c.Copy? || c.Expunge? || (c.AddFlags? && DELETED_FLAG in c.flags)
  }

  lemma RelocatingCommand(p: Proposal, s: Snapshot, c: Command)
    requires c in Plan(p, s) && Relocates(c)
    ensures s.doMove && s.folder != "" && s.folder != p.sourceFolder
    ensures (c.EnsureFolder? || c.Copy?) ==> c.folder == s.folder
  {
    TagsDoNotDelete(s.Tags());
  }

  /** In every run, whatever creates a folder, copies, marks deleted or expunges was approved as a move to another,
      named folder, and creates or copies to just that folder. */
  lemma OnlyApprovedMoves(mail: Mail, steps: seq<Step>, i: nat)
    requires i < |Exec(Start(mail), steps).trace| && Relocates(Exec(Start(mail), steps).trace[i].command)
    ensures var end, e := Exec(Start(mail), steps), Exec(Start(mail), steps).trace[i];
      && e.uid in end.world.rows
      && e.snapshot.doMove && e.snapshot.folder != "" && e.snapshot.folder != end.world.rows[e.uid].sourceFolder
      && ((e.command.EnsureFolder? || e.command.Copy?) ==> e.command.folder == e.snapshot.folder)
  {
    AppliedFromStart(mail, steps, i);
    var end, e := Exec(Start(mail), steps), Exec(Start(mail), steps).trace[i];
    RelocatingCommand(end.world.rows[e.uid], e.snapshot, e.command);
  }

  // ---------------------------------------------------------------- flags of tags

  /** A safe keyword character stays; any other becomes a hyphen. */
  predicate KeywordChar(c: char, k: char) {
    if 'a' <= c <= 'z' || 'A' <= c <= 'Z' || '0' <= c <= '9' || c == '-' || c == '_' then k == c else k == '-'
  }

  /** The keyword of a tag: a fixed prefix and the first eighty characters made safe. */
  ghost predicate KeywordOf(tag: string, flag: string) {
    && |flag| == 9 + (if |tag| < 80 then |tag| else 80) && flag[..9] == "MailFlow-"
    && forall i :: 9 <= i < |flag| ==> KeywordChar(tag[i - 9], flag[i])
  }

  lemma SafeTagIsKeyword(tag: string, flag: string)
    ensures KeywordOf(tag, flag) <==> flag == SafeTag(tag)
  {
    var safe := SafeTag(tag);
    assert safe[..9] == "MailFlow-";
    if KeywordOf(tag, flag) {
      assert forall i :: 0 <= i < 9 ==> flag[i] == flag[..9][i] && safe[i] == safe[..9][i];
      assert |flag| == |safe| && forall i :: 0 <= i < |flag| ==> flag[i] == safe[i];
    }
  }

  /** One keyword for each nonempty tag, and nothing else. */
  ghost predicate AreKeywords(flags: set<string>, tags: seq<string>) {
    && (forall flag <- flags :: exists i :: 0 <= i < |tags| && tags[i] != "" && KeywordOf(tags[i], flag))
    && (forall i :: 0 <= i < |tags| && tags[i] != "" ==> exists flag :: flag in flags && KeywordOf(tags[i], flag))
  }

  lemma TagFlagsAreKeywords(tags: seq<string>)
    ensures AreKeywords(TagFlags(tags), tags)
  {
    forall flag <- TagFlags(tags) ensures exists i :: 0 <= i < |tags| && tags[i] != "" && KeywordOf(tags[i], flag) {
      var tag :| tag in tags && SafeTag(tag) == flag;
      var i :| 0 <= i < |tags| && tags[i] == tag;
      SafeTagIsKeyword(tag, flag);
      assert SafeTag("") == "MailFlow-";
    }
    forall i | 0 <= i < |tags| && tags[i] != "" ensures exists flag :: flag in TagFlags(tags) && KeywordOf(tags[i], flag) {
      SafeTagIsKeyword(tags[i], SafeTag(tags[i]));
      assert |SafeTag(tags[i])| > 9;
      assert SafeTag(tags[i]) in TagFlags(tags);
    }
  }

  // ---------------------------------------------------------------- one uninterrupted pass

  /** The message gets its keywords and, if there is a tag or a move, the processed mark. */
  ghost predicate Tagged(before: Message, after: Message, snapshot: Snapshot, moved: bool) {
    after.content == before.content && exists added :: FlagsAre(before.flags, after.flags, snapshot, moved, added)
  }

  ghost predicate FlagsAre(before: set<string>, after: set<string>, snapshot: Snapshot, moved: bool, added: set<string>) {
    var tags := snapshot.systemTags + snapshot.userTags;
    AreKeywords(added, tags) && after == before + added + (if tags != [] || moved then {"MailFlow"} else {})
  }

  /** From an idle running job through the first message of the batch, uninterrupted: it reads, takes, fetches and
      then sends until there is a result. */
  function Pass(items: seq<Item>, sends: nat): seq<Step> { [ReadBatch(items), Take, Fetch] + Sends(sends) }

  ghost predicate ReadyToPass(s: System, items: seq<Item>) {
    && s.local.Idle? && s.world.job.Some? && s.world.job.value.state == Running
    && IsNextBatch(s.world.rows, s.world.job.value.batchSize, items) && items != []
    && items[0].proposal.approved.Some?
    && !items[0].proposal.approved.value.suspicious && !items[0].proposal.approved.value.reviewRequired
    && s.world.mail.uidvalidity == items[0].proposal.uidvalidity && items[0].uid in s.world.mail.source
  }

  /** Where the pass ends: with this mailbox and this result. */
  ghost predicate PassEnds(s: System, items: seq<Item>, sends: nat, mail: Mail, result: Status)
    requires items != []
  {
    Exec(s, Pass(items, sends)).world.mail == mail
    && Exec(s, Pass(items, sends)).local == Result(items[0], result, None, items[1..])
  }

  lemma PassSendsPlan(s: System, items: seq<Item>)
    requires ReadyToPass(s, items)
    ensures var item, snapshot := items[0], items[0].proposal.approved.value;
      var plan := Plan(item.proposal, snapshot);
      PassEnds(s, items, |plan| + 1, PerformAll(s.world.mail, item.uid, plan),
        if HasAction(item.proposal, snapshot) then Applied else Skipped)
  {
    var item, snapshot := items[0], items[0].proposal.approved.value;
    TakesUp(s, items);
    var held := Exec(s, TakeUp(items));
    SendAll(held);
    ExecConcat(s, TakeUp(items), Sends(|Plan(item.proposal, snapshot)| + 1));
  }

  lemma AddsFlags(m: Mail, uid: nat, flags: set<string>)
    requires uid in m.source
    ensures PerformAll(m, uid, [AddFlags(flags)])
         == m.(source := m.source[uid := m.source[uid].(flags := m.source[uid].flags + flags)])
  {
    assert PerformAll(m, uid, [AddFlags(flags)]) == PerformAll(Perform(m, uid, AddFlags(flags)), uid, []);
  }

  function Marks(s: Snapshot, moved: bool): seq<Command> {
    (if TagFlags(s.Tags()) != {} then [AddFlags(TagFlags(s.Tags()))] else [])
    + (if s.Tags() != [] || moved then [AddFlags({PROCESSED_FLAG})] else [])
  }

  function MarkFlags(s: Snapshot, moved: bool): set<string> {
    TagFlags(s.Tags()) + (if s.Tags() != [] || moved then {PROCESSED_FLAG} else {})
  }

  lemma MarksMark(m: Mail, uid: nat, s: Snapshot, moved: bool)
    requires uid in m.source
    ensures PerformAll(m, uid, Marks(s, moved))
         == m.(source := m.source[uid := m.source[uid].(flags := m.source[uid].flags + MarkFlags(s, moved))])
  {
    var first := if TagFlags(s.Tags()) != {} then [AddFlags(TagFlags(s.Tags()))] else [];
    var second := if s.Tags() != [] || moved then [AddFlags({PROCESSED_FLAG})] else [];
    PerformConcat(m, uid, first, second);
    var tagged := PerformAll(m, uid, first);
    var message := m.source[uid];
    assert message.flags + TagFlags(s.Tags()) + {} == message.flags + TagFlags(s.Tags());
    if TagFlags(s.Tags()) != {} {
      AddsFlags(m, uid, TagFlags(s.Tags()));
    } else {
      assert message.flags + TagFlags(s.Tags()) == message.flags;
      assert m.source[uid := message] == m.source;
    }
    assert tagged == m.(source := m.source[uid := message.(flags := message.flags + TagFlags(s.Tags()))]);
    if second != [] {
      AddsFlags(tagged, uid, {PROCESSED_FLAG});
      assert message.flags + TagFlags(s.Tags()) + {PROCESSED_FLAG} == message.flags + MarkFlags(s, moved);
    } else {
      assert MarkFlags(s, moved) == TagFlags(s.Tags());
    }
  }

  lemma MarkFlagsTag(before: Message, s: Snapshot, moved: bool)
    ensures Tagged(before, before.(flags := before.flags + MarkFlags(s, moved)), s, moved)
  {
    TagFlagsAreKeywords(s.Tags());
    SumOfFlags(before.flags, TagFlags(s.Tags()), if s.Tags() != [] || moved then {PROCESSED_FLAG} else {});
    assert FlagsAre(before.flags, before.flags + MarkFlags(s, moved), s, moved, TagFlags(s.Tags()));
  }

  lemma SumOfFlags(a: set<string>, b: set<string>, c: set<string>)
    ensures a + (b + c) == a + b + c
  {
  }

  lemma NoMovePlan(p: Proposal, s: Snapshot)
    requires !s.doMove || s.folder == "" || s.folder == p.sourceFolder
    ensures Plan(p, s) == Marks(s, false) && (HasAction(p, s) <==> s.systemTags + s.userTags != [])
  {
  }

  lemma MovePlan(p: Proposal, s: Snapshot)
    requires s.doMove && s.folder != "" && s.folder != p.sourceFolder
    ensures Plan(p, s) == Marks(s, true) + [EnsureFolder(s.folder), Copy(s.folder), AddFlags({DELETED_FLAG}), Expunge]
    ensures HasAction(p, s)
  {
  }

  /** Without an approved move the message stays where it is with just its keywords and mark more, nothing else in the
      mailbox changes, and the result says applied exactly if there was a tag. */
  lemma PassWithoutMove(s: System, items: seq<Item>) returns (sends: nat, tagged: Message)
    requires ReadyToPass(s, items)
    requires var p := items[0].proposal;
      !p.approved.value.doMove || p.approved.value.folder == "" || p.approved.value.folder == p.sourceFolder
    ensures Tagged(s.world.mail.source[items[0].uid], tagged, items[0].proposal.approved.value, false)
    ensures var snapshot := items[0].proposal.approved.value;
      PassEnds(s, items, sends, s.world.mail.(source := s.world.mail.source[items[0].uid := tagged]),
        if snapshot.systemTags + snapshot.userTags != [] then Applied else Skipped)
  {
    var uid, p, snapshot := items[0].uid, items[0].proposal, items[0].proposal.approved.value;
    NoMovePlan(p, snapshot);
    PassSendsPlan(s, items);
    MarksMark(s.world.mail, uid, snapshot, false);
    MarkFlagsTag(s.world.mail.source[uid], snapshot, false);
    var before := s.world.mail.source[uid];
    sends, tagged := |Plan(p, snapshot)| + 1, before.(flags := before.flags + MarkFlags(snapshot, false));
  }

  /** The folder exists; if it was missing it was created empty. */
  function Existing(m: Mail, folder: string): seq<Message> { if folder in m.folders then m.folders[folder] else [] }

  lemma MoveMoves(m: Mail, uid: nat, folder: string)
    requires uid in m.source
    ensures var m' := PerformAll(m, uid, [EnsureFolder(folder), Copy(folder), AddFlags({DELETED_FLAG}), Expunge]);
      && uid !in m'.source
      && m'.folders == m.folders[folder := Existing(m, folder) + [m.source[uid]]]
      && forall other <- m.source | other != uid && DELETED_FLAG !in m.source[other].flags ::
           other in m'.source && m'.source[other] == m.source[other]
  {
    PerformFour(m, uid, EnsureFolder(folder), Copy(folder), AddFlags({DELETED_FLAG}), Expunge);
    var a := Perform(m, uid, EnsureFolder(folder));
    var b := Perform(a, uid, Copy(folder));
    var c := Perform(b, uid, AddFlags({DELETED_FLAG}));
    assert a.folders[folder] == Existing(m, folder);
    assert b.folders == m.folders[folder := Existing(m, folder) + [m.source[uid]]];
    assert DELETED_FLAG in c.source[uid].flags;
  }

  lemma PerformTwo(m: Mail, uid: nat, a: Command, b: Command)
    ensures PerformAll(m, uid, [a, b]) == Perform(Perform(m, uid, a), uid, b)
  {
    assert [a, b][1..] == [b];
    assert PerformAll(Perform(m, uid, a), uid, [b]) == PerformAll(Perform(Perform(m, uid, a), uid, b), uid, []);
  }

  lemma PerformFour(m: Mail, uid: nat, a: Command, b: Command, c: Command, d: Command)
    ensures PerformAll(m, uid, [a, b, c, d]) == Perform(Perform(Perform(Perform(m, uid, a), uid, b), uid, c), uid, d)
  {
    PerformTwo(m, uid, a, b);
    PerformTwo(Perform(Perform(m, uid, a), uid, b), uid, c, d);
    PerformConcat(m, uid, [a, b], [c, d]);
    assert [a, b] + [c, d] == [a, b, c, d];
  }

  /** Gone from the source folder and, as `filed`, last in another; all else is as it was, but for expunged messages. */
  predicate MovedAs(before: Mail, after: Mail, uid: nat, folder: string, filed: Message) {
    && uid !in after.source
    && after.folders == before.folders[folder := Existing(before, folder) + [filed]]
    && forall other <- before.source | other != uid && "\\Deleted" !in before.source[other].flags ::
         other in after.source && after.source[other] == before.source[other]
  }

  lemma MarkedAndMoved(m: Mail, uid: nat, snapshot: Snapshot) returns (filed: Message)
    requires uid in m.source
    ensures Tagged(m.source[uid], filed, snapshot, true)
    ensures MovedAs(m, PerformAll(PerformAll(m, uid, Marks(snapshot, true)), uid,
      [EnsureFolder(snapshot.folder), Copy(snapshot.folder), AddFlags({DELETED_FLAG}), Expunge]), uid, snapshot.folder, filed)
  {
    var marked := PerformAll(m, uid, Marks(snapshot, true));
    MarksMark(m, uid, snapshot, true);
    filed := marked.source[uid];
    MoveMoves(marked, uid, snapshot.folder);
    MarkFlagsTag(m.source[uid], snapshot, true);
    Combine(m, marked, PerformAll(marked, uid,
      [EnsureFolder(snapshot.folder), Copy(snapshot.folder), AddFlags({DELETED_FLAG}), Expunge]), uid, snapshot.folder);
  }

  lemma Combine(m: Mail, marked: Mail, after: Mail, uid: nat, folder: string)
    requires uid in m.source && uid in marked.source && marked == m.(source := m.source[uid := marked.source[uid]])
    requires uid !in after.source
    requires after.folders == marked.folders[folder := Existing(marked, folder) + [marked.source[uid]]]
    requires forall other <- marked.source | other != uid && DELETED_FLAG !in marked.source[other].flags ::
      other in after.source && after.source[other] == marked.source[other]
    ensures MovedAs(m, after, uid, folder, marked.source[uid])
  {
    forall other <- m.source | other != uid && "\\Deleted" !in m.source[other].flags
      ensures other in after.source && after.source[other] == m.source[other]
    {
      assert marked.source[other] == m.source[other];
    }
  }

  lemma PlanMoves(m: Mail, uid: nat, p: Proposal, snapshot: Snapshot) returns (filed: Message)
    requires uid in m.source && snapshot.doMove && snapshot.folder != "" && snapshot.folder != p.sourceFolder
    ensures Tagged(m.source[uid], filed, snapshot, true) && HasAction(p, snapshot)
    ensures MovedAs(m, PerformAll(m, uid, Plan(p, snapshot)), uid, snapshot.folder, filed)
  {
    MovePlan(p, snapshot);
    PerformConcat(m, uid, Marks(snapshot, true),
      [EnsureFolder(snapshot.folder), Copy(snapshot.folder), AddFlags({DELETED_FLAG}), Expunge]);
    filed := MarkedAndMoved(m, uid, snapshot);
  }

  /** With a move approved to another, named folder the message is gone from the source folder and stands last in the
      folder approved, as it was but for its keywords and mark. No other folder changes, and every message not marked
      deleted stays. */
  lemma PassWithMove(s: System, items: seq<Item>) returns (sends: nat, filed: Message, after: Mail)
    requires ReadyToPass(s, items)
    requires var p := items[0].proposal;
      p.approved.value.doMove && p.approved.value.folder != "" && p.approved.value.folder != p.sourceFolder
    ensures PassEnds(s, items, sends, after, Applied)
    ensures Tagged(s.world.mail.source[items[0].uid], filed, items[0].proposal.approved.value, true)
    ensures MovedAs(s.world.mail, after, items[0].uid, items[0].proposal.approved.value.folder, filed)
  {
    var uid, p, snapshot := items[0].uid, items[0].proposal, items[0].proposal.approved.value;
    filed := PlanMoves(s.world.mail, uid, p, snapshot);
    PassSendsPlan(s, items);
    sends, after := |Plan(p, snapshot)| + 1, PerformAll(s.world.mail, uid, Plan(p, snapshot));
  }

  // ---------------------------------------------------------------- what is never applied

  /** The message in hand, if any, has a snapshot that is neither suspicious nor waiting for review. */
  predicate HandIsCleared(l: Local) {
    l.Fetching? || l.Acting? ==> !l.snapshot.suspicious && !l.snapshot.reviewRequired
  }

  lemma StepKeepsCleared(s: System, step: Step)
    requires HandIsCleared(s.local)
    ensures HandIsCleared(Apply(s, step).local)
    ensures s.trace <= Apply(s, step).trace
    ensures forall i :: |s.trace| <= i < |Apply(s, step).trace| ==>
      !Apply(s, step).trace[i].snapshot.suspicious && !Apply(s, step).trace[i].snapshot.reviewRequired
  {
  }

  /** From any rows, however they got their approvals, no command is sent for a suspicious or unreviewed snapshot. */
  lemma {:induction false} NothingUnclearedApplied(s: System, steps: seq<Step>)
    requires HandIsCleared(s.local)
    ensures var end := Exec(s, steps);
      && s.trace <= end.trace
      && forall i :: |s.trace| <= i < |end.trace| ==>
           !end.trace[i].snapshot.suspicious && !end.trace[i].snapshot.reviewRequired
    decreases |steps|
  {
    if steps != [] {
      StepKeepsCleared(s, steps[0]);
      NothingUnclearedApplied(Apply(s, steps[0]), steps[1..]);
    }
  }
}
