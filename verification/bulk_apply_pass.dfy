/** The reference for bulk apply: the whole queue in one uninterrupted pass, and outcomes that differ from it by
    duplicated messages. */
module BulkApplyPass {
  import opened Common
  import opened BulkRows
  import opened BulkApply

  // ---------------------------------------------------------------- one pass, no crash

  datatype Processed = Processed(mail: Mail, result: Status, error: Option<Reason>)

  /** One message applied without interruption. */
  function Process(m: Mail, uid: nat, p: Proposal): Processed {
    match p.approved
    case None => Processed(m, Review, Some(SnapshotMissing))
    case Some(snapshot) =>
      if snapshot.Blocked() then Processed(m, Review, Some(NeedsReview))
      else if m.uidvalidity != p.uidvalidity then Processed(m, Review, Some(UidvalidityChanged))
      else if uid !in m.source then Processed(m, Skipped, None)
      else Processed(PerformAll(m, uid, Plan(p, snapshot)), if HasAction(p, snapshot) then Applied else Skipped, None)
  }

  datatype Outcome = Outcome(mail: Mail, rows: Rows)

  function ProcessRow(o: Outcome, uid: nat): Outcome
    requires uid in o.rows
  {
    var done := Process(o.mail, uid, o.rows[uid]);
    Outcome(done.mail, MarkRow(o.rows, uid, done.result, done.error))
  }

  lemma MarkShrinks(rows: Rows, uid: nat, result: Status, error: Option<Reason>)
    requires uid in Queue(rows) && IsResult(result)
    ensures Queue(MarkRow(rows, uid, result, error)) == Queue(rows) - {uid}
    ensures |Queue(MarkRow(rows, uid, result, error))| == |Queue(rows)| - 1
  {
    assert Queue(MarkRow(rows, uid, result, error)) == Queue(rows) - {uid};
  }

  /** The whole queue in one pass, by ascending UID. */
  ghost function FinishAll(o: Outcome): Outcome
    decreases |Queue(o.rows)|
  {
    if Queue(o.rows) == {} then o
    else
      var uid := Least(Queue(o.rows));
      MarkShrinks(o.rows, uid, Process(o.mail, uid, o.rows[uid]).result, Process(o.mail, uid, o.rows[uid]).error);
      FinishAll(ProcessRow(o, uid))
  }

  // ---------------------------------------------------------------- outcomes that differ by duplicates

  /** One more message in a folder. */
  datatype Extra = Extra(folder: string, message: Message)

  function Filed(m: Mail, folder: string): multiset<Message> {
    if folder in m.folders then multiset(m.folders[folder]) else multiset{}
  }

  /** The same mailbox, but for these extra messages; none extra means equal. */
  ghost predicate NearMail(m: Mail, m': Mail, extra: multiset<Extra>) {
    && m'.uidvalidity == m.uidvalidity && m'.source == m.source && m'.folders.Keys == m.folders.Keys
    && (forall f, message :: Filed(m', f)[message] == Filed(m, f)[message] + extra[Extra(f, message)])
    && (extra == multiset{} ==> m' == m)
  }

  /** Recorded results agree, except that a message applied before a crash may be recorded as skipped. */
  ghost predicate NearRows(rows: Rows, rows': Rows) {
    && rows'.Keys == rows.Keys
    && forall uid <- rows ::
         rows'[uid] == rows[uid]
         || (rows[uid].status == Applied && rows'[uid] == rows[uid].(status := Skipped, lastError := None))
  }

  ghost predicate Near(o: Outcome, o': Outcome, extra: multiset<Extra>) {
    NearMail(o.mail, o'.mail, extra) && NearRows(o.rows, o'.rows)
  }

  lemma NearTransitive(a: Outcome, b: Outcome, c: Outcome, x: multiset<Extra>, y: multiset<Extra>)
    requires Near(a, b, x) && Near(b, c, y)
    ensures Near(a, c, x + y)
  {
    if x + y == multiset{} {
      assert x == multiset{} by { assert forall e :: x[e] <= (x + y)[e]; }
      assert y == multiset{} by { assert forall e :: y[e] <= (x + y)[e]; }
    }
  }

  /** What one command files. */
  function Appended(m: Mail, uid: nat, c: Command, folder: string): multiset<Message> {
    if c == Copy(folder) && uid in m.source && folder in m.folders then multiset{m.source[uid]} else multiset{}
  }

  lemma FiledAfter(m: Mail, uid: nat, c: Command, folder: string)
    ensures Filed(Perform(m, uid, c), folder) == Filed(m, folder) + Appended(m, uid, c, folder)
  {
    match c
    case AddFlags(_) =>
    case EnsureFolder(_) =>
    case Copy(to) => if uid in m.source && to in m.folders && to == folder { FiledCopy(m.folders[to], m.source[uid]); }
    case Expunge =>
  }

  lemma FiledCopy(messages: seq<Message>, one: Message)
    ensures multiset(messages + [one]) == multiset(messages) + multiset{one}
  {
  }

  lemma PerformNear(m: Mail, m': Mail, extra: multiset<Extra>, uid: nat, c: Command)
    requires NearMail(m, m', extra)
    ensures NearMail(Perform(m, uid, c), Perform(m', uid, c), extra)
  {
    forall f, message
      ensures Filed(Perform(m', uid, c), f)[message] == Filed(Perform(m, uid, c), f)[message] + extra[Extra(f, message)]
    {
      FiledAfter(m, uid, c, f);
      FiledAfter(m', uid, c, f);
    }
  }

  lemma {:induction false} PerformAllNear(m: Mail, m': Mail, extra: multiset<Extra>, uid: nat, cs: seq<Command>)
    requires NearMail(m, m', extra)
    ensures NearMail(PerformAll(m, uid, cs), PerformAll(m', uid, cs), extra)
    decreases |cs|
  {
    if cs != [] {
      PerformNear(m, m', extra, uid, cs[0]);
      PerformAllNear(Perform(m, uid, cs[0]), Perform(m', uid, cs[0]), extra, uid, cs[1..]);
    }
  }

  lemma ProcessNear(o: Outcome, o': Outcome, extra: multiset<Extra>, uid: nat)
    requires Near(o, o', extra) && uid in Queue(o.rows)
    ensures uid in Queue(o'.rows) && Near(ProcessRow(o, uid), ProcessRow(o', uid), extra)
  {
    ProcessMailNear(o.mail, o'.mail, extra, uid, o.rows[uid]);
  }

  lemma ProcessMailNear(m: Mail, m': Mail, extra: multiset<Extra>, uid: nat, p: Proposal)
    requires NearMail(m, m', extra)
    ensures var one, other := Process(m, uid, p), Process(m', uid, p);
      NearMail(one.mail, other.mail, extra) && other.result == one.result && other.error == one.error
  {
    ProcessCases(m, uid, p);
    ProcessCases(m', uid, p);
    if p.approved.Some? { PerformAllNear(m, m', extra, uid, Plan(p, p.approved.value)); }
  }

  predicate Reaches(m: Mail, uid: nat, p: Proposal) {
    p.approved.Some? && !p.approved.value.Blocked() && m.uidvalidity == p.uidvalidity && uid in m.source
  }

  lemma ProcessCases(m: Mail, uid: nat, p: Proposal)
    ensures Process(m, uid, p).mail == if Reaches(m, uid, p) then PerformAll(m, uid, Plan(p, p.approved.value)) else m
  {
  }

  lemma {:induction false} FinishNear(o: Outcome, o': Outcome, extra: multiset<Extra>)
    requires Near(o, o', extra)
    ensures Near(FinishAll(o), FinishAll(o'), extra)
    decreases |Queue(o.rows)|
  {
    assert Queue(o.rows) == Queue(o'.rows);
    if Queue(o.rows) != {} {
      var uid := Least(Queue(o.rows));
      MarkShrinks(o.rows, uid, Process(o.mail, uid, o.rows[uid]).result, Process(o.mail, uid, o.rows[uid]).error);
      ProcessNear(o, o', extra, uid);
      FinishNear(ProcessRow(o, uid), ProcessRow(o', uid), extra);
    }
  }

  // ---------------------------------------------------------------- the batch as the head of the queue

  /** What the batch holds are the first queued rows, as they are. */
  ghost predicate Held(rows: Rows, items: seq<Item>) {
    && Ascending(items)
    && (forall i :: 0 <= i < |items| ==>
          items[i].uid in rows && rows[items[i].uid] == items[i].proposal && items[i].proposal.Queued())
    && (forall uid <- rows | rows[uid].Queued() && uid !in Uids(items) :: forall i :: 0 <= i < |items| ==> items[i].uid < uid)
  }

  lemma HeadIsLeast(rows: Rows, items: seq<Item>)
    requires Held(rows, items) && items != []
    ensures IsLeast(items[0].uid, Queue(rows)) && rows[items[0].uid] == items[0].proposal
  {
    forall uid <- Queue(rows) ensures items[0].uid <= uid {
      if uid in Uids(items) {
        var i :| 0 <= i < |items| && items[i].uid == uid;
        if i > 0 { assert items[0].uid < items[i].uid; }
      }
    }
  }

  lemma UidsTail(items: seq<Item>)
    requires items != []
    ensures Uids(items) == {items[0].uid} + Uids(items[1..])
  {
    var rest := items[1..];
    forall uid <- Uids(items) ensures uid in {items[0].uid} + Uids(rest) {
      var i :| 0 <= i < |items| && items[i].uid == uid;
      assert i == 0 || rest[i - 1] == items[i];
    }
    forall uid <- Uids(rest) ensures uid in Uids(items) {
      var i :| 0 <= i < |rest| && rest[i].uid == uid;
      assert rest[i] == items[i + 1];
    }
  }

  lemma TailHeld(rows: Rows, items: seq<Item>, result: Status, error: Option<Reason>)
    requires Held(rows, items) && items != [] && IsResult(result)
    ensures items[0].uid in rows && Held(MarkRow(rows, items[0].uid, result, error), items[1..])
  {
    var rows', rest := MarkRow(rows, items[0].uid, result, error), items[1..];
    forall i | 0 <= i < |rest| ensures rest[i].uid in rows' && rows'[rest[i].uid] == rest[i].proposal && rest[i].proposal.Queued() {
      assert rest[i] == items[i + 1];
    }
    forall i, j | 0 <= i < j < |rest| ensures rest[i].uid < rest[j].uid { assert items[i + 1].uid < items[j + 1].uid; }
    forall uid <- rows' | rows'[uid].Queued() && uid !in Uids(rest)
      ensures forall i :: 0 <= i < |rest| ==> rest[i].uid < uid
    {
      UidsTail(items);
      assert forall i :: 0 <= i < |rest| ==> rest[i] == items[i + 1];
    }
  }
}
