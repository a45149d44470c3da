/** Bulk apply as a step machine: one batch of approved snapshots, one IMAP command or one committed
    transaction per step, with human decisions, the mailbox's other users and crashes in between. At most
    one apply batch is in flight. */
module BulkApply {
  import opened Common
  import opened BulkRows

  // ---------------------------------------------------------------- the mailbox

  const PROCESSED_FLAG: string := "MailFlow"
  const DELETED_FLAG: string := "\\Deleted"

  datatype Message = Message(content: nat, flags: set<string>)

  /** The source folder by UID, and every other folder as the messages appended to it. */
  datatype Mail = Mail(uidvalidity: nat, uidNext: nat, source: map<nat, Message>, folders: map<string, seq<Message>>) {
    /** UIDs are positive and below UIDNEXT (section 2.3.1.1 of RFC 3501). */
    ghost predicate Valid() { 1 <= uidNext && forall uid <- source :: 1 <= uid < uidNext }
  }

  datatype Command =
    | AddFlags(flags: set<string>)
    | EnsureFolder(folder: string)
    | Copy(folder: string)
    | Expunge

  function SafeChar(c: char): char {
    if 'a' <= c <= 'z' || 'A' <= c <= 'Z' || '0' <= c <= '9' || c == '-' || c == '_' then c else '-'
  }

  function SafeTag(tag: string): string {
    var n := if |tag| < 80 then |tag| else 80;
    "MailFlow-" + seq(n, i requires 0 <= i < n => SafeChar(tag[i]))
  }

  function TagFlags(tags: seq<string>): set<string> {
    (set tag | tag in tags :: SafeTag(tag)) - {"MailFlow-"}
  }

  /** Commands act on the message at `uid`; a missing message makes them do nothing. */
  function Perform(m: Mail, uid: nat, c: Command): Mail {
    match c
    case AddFlags(flags) =>
      if uid in m.source then m.(source := m.source[uid := m.source[uid].(flags := m.source[uid].flags + flags)]) else m
    case EnsureFolder(folder) => if folder in m.folders then m else m.(folders := m.folders[folder := []])
    case Copy(folder) =>
      if uid in m.source && folder in m.folders
      then m.(folders := m.folders[folder := m.folders[folder] + [m.source[uid]]]) else m
    case Expunge => m.(source := map u | u in m.source && DELETED_FLAG !in m.source[u].flags :: m.source[u])
  }

  function PerformAll(m: Mail, uid: nat, cs: seq<Command>): Mail
    decreases |cs|
  {
    if cs == [] then m else PerformAll(Perform(m, uid, cs[0]), uid, cs[1..])
  }

  // ---------------------------------------------------------------- what an approved snapshot does

  predicate HasMove(p: Proposal, s: Snapshot) {
    s.doMove && s.folder != "" && s.folder != p.sourceFolder
  }

  predicate HasAction(p: Proposal, s: Snapshot) {
    s.Tags() != [] || HasMove(p, s)
  }

  /** Tags, then the processed mark, then the move: create the folder, copy, mark deleted, expunge. */
  function Plan(p: Proposal, s: Snapshot): seq<Command> {
    (if TagFlags(s.Tags()) != {} then [AddFlags(TagFlags(s.Tags()))] else [])
    + (if HasAction(p, s) then [AddFlags({PROCESSED_FLAG})] else [])
    + (if HasMove(p, s) then [EnsureFolder(s.folder), Copy(s.folder), AddFlags({DELETED_FLAG}), Expunge] else [])
  }

  // ---------------------------------------------------------------- the machine

  /** One command sent: for which UID, under which snapshot, the UIDVALIDITY the fetch reported, and the one the
      mailbox has when the command reaches it. */
  datatype Effect = Effect(uid: nat, snapshot: Snapshot, seen: nat, uidvalidity: nat, command: Command)

  datatype World = World(rows: Rows, job: Option<ApplyJob>, mail: Mail)

  /** A proposal as the batch read it; later row changes do not reach it. */
  datatype Item = Item(uid: nat, proposal: Proposal)

  datatype Local =
    | Idle
    | Batch(todo: seq<Item>)
    | Fetching(item: Item, snapshot: Snapshot, todo: seq<Item>)
    | Acting(item: Item, snapshot: Snapshot, seen: nat, left: seq<Command>, todo: seq<Item>)
    | Result(item: Item, result: Status, error: Option<Reason>, todo: seq<Item>)

  /** `approvals` and `trace` are history: the snapshot stored at each approval, and every command sent. */
  datatype System = System(world: World, local: Local, approvals: map<nat, Snapshot>, trace: seq<Effect>)

  datatype Step =
    // the batch
    | ReadBatch(items: seq<Item>)
    | Take
    | Fetch
    | Send
    | ProviderFails
    | Mark
    | Close
    | Crash
    // people, the proposal generator, the listing page
    | CreateRow(uid: nat, folder: string, uidvalidity: nat, snapshot: Snapshot)
    | EditRows(selected: set<nat>, edit: Edit)
    | ApproveOne(uid: nat)
    | ApproveAllSafe
    | ApproveCluster(selected: set<nat>)
    | Exclude(uid: nat)
    | StartApply(batchSize: nat)
    | SetJobState(state: JobState)
    | Heal
    // the mailbox's other users and the server
    | MailboxChanges(mail: Mail)
  {
    predicate ByBatch() {
      ReadBatch? || Take? || Fetch? || Send? || ProviderFails? || Mark? || Close? || Crash?
    }

    /** A decision about rows, or a new row. */
    predicate Decides() {
      CreateRow? || EditRows? || ApproveOne? || ApproveAllSafe? || ApproveCluster? || Exclude?
    }
  }

  ghost predicate Ascending(items: seq<Item>) {
    forall i, j :: 0 <= i < j < |items| ==> items[i].uid < items[j].uid
  }

  function Uids(items: seq<Item>): set<nat> {
    set i | 0 <= i < |items| :: items[i].uid
  }

  /** The first `batchSize` queued rows by UID. */
  ghost predicate IsNextBatch(rows: Rows, batchSize: nat, items: seq<Item>) {
    && Ascending(items) && |items| <= batchSize
    && (forall i :: 0 <= i < |items| ==>
          items[i].uid in rows && rows[items[i].uid].Queued() && items[i].proposal == rows[items[i].uid])
    && (forall uid <- rows | rows[uid].Queued() && uid !in Uids(items) ::
          |items| == batchSize && forall i :: 0 <= i < |items| ==> items[i].uid < uid)
  }

  function TakeItem(s: System, item: Item, rest: seq<Item>): System {
    match item.proposal.approved
    case None => s.(local := Result(item, Review, Some(SnapshotMissing), rest))
    case Some(snapshot) =>
      if snapshot.Blocked() then s.(local := Result(item, Review, Some(NeedsReview), rest))
      else s.(local := Fetching(item, snapshot, rest))
  }

  function FetchItem(s: System, item: Item, snapshot: Snapshot, rest: seq<Item>): System {
    if s.world.mail.uidvalidity != item.proposal.uidvalidity then
      s.(local := Result(item, Review, Some(UidvalidityChanged), rest))
    else if item.uid !in s.world.mail.source then s.(local := Result(item, Skipped, None, rest))
    else s.(local := Acting(item, snapshot, s.world.mail.uidvalidity, Plan(item.proposal, snapshot), rest))
  }

  ghost function BatchStep(s: System, step: Step): System
    requires step.ByBatch()
  {
    var w, l := s.world, s.local;
    match step
    case Crash => s.(local := Idle)
    case ReadBatch(items) =>
      if l.Idle? && w.job.Some? && w.job.value.state == Running && IsNextBatch(w.rows, w.job.value.batchSize, items)
      then s.(local := Batch(items)) else s
    case Take => if l.Batch? && l.todo != [] then TakeItem(s, l.todo[0], l.todo[1..]) else s
    case Fetch => if l.Fetching? then FetchItem(s, l.item, l.snapshot, l.todo) else s
    case Send =>
      if !l.Acting? then s
      else if l.left == [] then
        s.(local := Result(l.item, if HasAction(l.item.proposal, l.snapshot) then Applied else Skipped, None, l.todo))
      else
        s.(world := w.(mail := Perform(w.mail, l.item.uid, l.left[0])),
           local := Acting(l.item, l.snapshot, l.seen, l.left[1..], l.todo),
           trace := s.trace + [Effect(l.item.uid, l.snapshot, l.seen, w.mail.uidvalidity, l.left[0])])
    case ProviderFails =>
      if l.Acting? || l.Fetching? then s.(local := Result(l.item, Failed, Some(ProviderError), l.todo)) else s
    case Mark =>
      if l.Result? && l.item.uid in w.rows && w.job.Some? then
        s.(world := w.(rows := MarkRow(w.rows, l.item.uid, l.result, l.error),
                       job := Some(CountResult(w.job.value, l.result))),
           local := Batch(l.todo))
      else s
    case Close =>
      if l.Batch? && l.todo == [] && w.job.Some?
      then s.(world := w.(job := Some(Finalize(w.rows, w.job.value))), local := Idle) else s
  }

  /** Snapshots stored by the approvals that took `before` to `after`. */
  function NewApprovals(before: Rows, after: Rows): map<nat, Snapshot> {
    map uid | uid in after && uid in before && before[uid].status == Proposed && after[uid].status == Approved
              && after[uid].approved.Some? :: after[uid].approved.value
  }

  function WithRows(s: System, rows: Rows): System {
    s.(world := s.world.(rows := rows), approvals := s.approvals + NewApprovals(s.world.rows, rows))
  }

  function Decide(rows: Rows, step: Step): Rows
    requires step.Decides()
  {
    match step
    case CreateRow(uid, folder, uidvalidity, snapshot) =>
      if uid in rows then rows
      else rows[uid := Proposal(folder, uidvalidity, Proposed, snapshot, None, None, None)]
    case EditRows(selected, edit) => EditCluster(rows, selected, edit)
    case ApproveOne(uid) => if uid in rows then rows[uid := OrSame(ApproveRow(rows[uid]), rows[uid])] else rows
    case ApproveAllSafe => ApproveSafe(rows)
    case ApproveCluster(selected) => ConfirmCluster(rows, selected)
    case Exclude(uid) => if uid in rows then rows[uid := OrSame(ExcludeRow(rows[uid]), rows[uid])] else rows
  }

  function OthersStep(s: System, step: Step): System
    requires !step.ByBatch()
  {
    var w := s.world;
    if step.Decides() then WithRows(s, Decide(w.rows, step))
    else match step
    case StartApply(batchSize) =>
      if w.job.Some? || batchSize == 0 then s else s.(world := w.(job := NewApplyJob(w.rows, batchSize)))
    case SetJobState(state) =>
      if w.job.Some? && state != Completed && w.job.value.state != Completed
      then s.(world := w.(job := Some(w.job.value.(state := state)))) else s
    case Heal =>
      s.(world := w.(rows := HealRows(w.rows), job := if w.job.Some? then Some(HealJob(w.rows, w.job.value)) else None))
    case MailboxChanges(mail) => s.(world := w.(mail := mail))
  }

  ghost function Apply(s: System, step: Step): System {
    if step.ByBatch() then BatchStep(s, step) else OthersStep(s, step)
  }

  ghost function Exec(s: System, steps: seq<Step>): System
    decreases |steps|
  {
    if steps == [] then s else Exec(Apply(s, steps[0]), steps[1..])
  }

  function Start(mail: Mail): System {
    System(World(map[], None, mail), Idle, map[], [])
  }
}
