/** Persistence of remembered classification decisions: what superseding keeps true over every sequence of
    repository calls. Each call is one transaction. */
module DecisionMemoryStore {
  import opened Common

  datatype Source = HumanConfirmed | HumanCorrected | AiObserved {
    predicate Trusted() { HumanConfirmed? || HumanCorrected? }
  }

  /** The matching identity; absent parts are compared null-safely. */
  datatype Key = Key(sender: Option<string>, domain: Option<string>, subject: Option<string>, thread: Option<string>)

  /** The fields whose difference makes two entries conflict. */
  datatype Decision = Decision(
    category: string, subcategory: Option<string>, importance: string, urgency: string, actionRequired: string,
    routingTarget: Option<string>)

  datatype Entry = Entry(
    account: string, key: Key, decision: Decision, tags: seq<string>, source: Source, trust: real, enabled: bool,
    hits: nat, supersededBy: Option<nat>)
  {
    predicate Authoritative() { enabled && source.Trusted() }
  }

  type Entries = map<nat, Entry>

  /** What a caller writes. */
  datatype Draft = Draft(key: Key, decision: Decision, tags: seq<string>, source: Source, trust: real)

  predicate Conflicts(older: Entry, newer: Entry) {
    && older.Authoritative() && older.account == newer.account && older.key == newer.key
    && older.decision != newer.decision
  }

  function Supersede(entries: Entries, id: nat): Entries
    requires id in entries
  {
    if !entries[id].source.Trusted() then entries
    else
      map other | other in entries ::
        if other != id && Conflicts(entries[other], entries[id])
        then entries[other].(enabled := false, supersededBy := Some(id)) else entries[other]
  }

  datatype Call =
    | Create(id: nat, account: string, draft: Draft)
    | Update(id: nat, draft: Draft, enabled: bool)
    | Delete(id: nat)
    | MarkUsed(id: nat, account: string)

  function Written(e: Entry, d: Draft, enabled: bool): Entry {
    Entry(e.account, d.key, d.decision, d.tags, d.source, d.trust, enabled, e.hits, e.supersededBy)
  }

  function Created(account: string, d: Draft): Entry {
    Entry(account, d.key, d.decision, d.tags, d.source, d.trust, true, 0, None)
  }

  /** Deleting a row clears the references to it. */
  function Deleted(entries: Entries, id: nat): Entries {
    map other | other in entries && other != id ::
      if entries[other].supersededBy == Some(id) then entries[other].(supersededBy := None) else entries[other]
  }

  function Apply(entries: Entries, c: Call): Entries {
    match c
    case Create(id, account, draft) =>
      if id in entries then entries else Supersede(entries[id := Created(account, draft)], id)
    case Update(id, draft, enabled) =>
      if id !in entries then entries
      else
        var written := entries[id := Written(entries[id], draft, enabled)];
        if enabled then Supersede(written, id) else written
    case Delete(id) => Deleted(entries, id)
    case MarkUsed(id, account) =>
      if id in entries && entries[id].account == account && entries[id].enabled
      then entries[id := entries[id].(hits := entries[id].hits + 1)] else entries
  }

  function Exec(entries: Entries, calls: seq<Call>): Entries
    decreases |calls|
  {
    if calls == [] then entries else Exec(Apply(entries, calls[0]), calls[1..])
  }

  // ---------------------------------------------------------------- the latest human decision

  type Ledger = map<(string, Key), Decision>

  /** The log form: the last enabled human decision written for each account and identity. */
  function Record(ledger: Ledger, entries: Entries, c: Call): Ledger {
    match c
    case Create(id, account, draft) =>
      if id !in entries && draft.source.Trusted() then ledger[(account, draft.key) := draft.decision] else ledger
    case Update(id, draft, enabled) =>
      if id in entries && enabled && draft.source.Trusted()
      then ledger[(entries[id].account, draft.key) := draft.decision] else ledger
    case _ => ledger
  }

  function Recorded(ledger: Ledger, entries: Entries, calls: seq<Call>): Ledger
    decreases |calls|
  {
    if calls == [] then ledger else Recorded(Record(ledger, entries, calls[0]), Apply(entries, calls[0]), calls[1..])
  }

  /** Every enabled trusted entry carries the latest human decision of its account and identity. */
  ghost predicate FollowsLedger(entries: Entries, ledger: Ledger) {
    forall id <- entries | entries[id].Authoritative() ::
      (entries[id].account, entries[id].key) in ledger
      && ledger[(entries[id].account, entries[id].key)] == entries[id].decision
  }

  lemma WriteFollows(entries: Entries, ledger: Ledger, id: nat, e: Entry)
    requires FollowsLedger(entries, ledger) && e.enabled
    ensures FollowsLedger(Supersede(entries[id := e], id),
      if e.source.Trusted() then ledger[(e.account, e.key) := e.decision] else ledger)
  {
    var entries' := Supersede(entries[id := e], id);
    forall other <- entries' | other != id && entries'[other].Authoritative()
      ensures entries'[other] == entries[other]
    {
    }
  }

  lemma CallFollows(entries: Entries, ledger: Ledger, c: Call)
    requires FollowsLedger(entries, ledger)
    ensures FollowsLedger(Apply(entries, c), Record(ledger, entries, c))
  {
    match c
    case Create(id, account, draft) =>
      if id !in entries { WriteFollows(entries, ledger, id, Created(account, draft)); }
    case Update(id, draft, enabled) =>
      if id in entries && enabled { WriteFollows(entries, ledger, id, Written(entries[id], draft, true)); }
    case _ =>
  }

  /** Over every sequence of calls the enabled trusted entries say what the log's last human decision says. */
  lemma {:induction false} EntriesFollowLatestDecision(entries: Entries, ledger: Ledger, calls: seq<Call>)
    requires FollowsLedger(entries, ledger)
    ensures FollowsLedger(Exec(entries, calls), Recorded(ledger, entries, calls))
    decreases |calls|
  {
    if calls != [] {
      CallFollows(entries, ledger, calls[0]);
      EntriesFollowLatestDecision(Apply(entries, calls[0]), Record(ledger, entries, calls[0]), calls[1..]);
    }
  }

  /** Hence two of them with one account and identity never differ. */
  lemma NeverTwoDecisions(calls: seq<Call>, i: nat, j: nat)
    requires i in Exec(map[], calls) && j in Exec(map[], calls)
    requires var e, f := Exec(map[], calls)[i], Exec(map[], calls)[j];
      e.Authoritative() && f.Authoritative() && e.account == f.account && e.key == f.key
    ensures Exec(map[], calls)[i].decision == Exec(map[], calls)[j].decision
  {
    EntriesFollowLatestDecision(map[], map[], calls);
  }

  // ---------------------------------------------------------------- what superseding touches

  /** A newer entry, if trusted, disables exactly the other enabled trusted entries of its account and identity with
      another decision, points them at itself, and changes nothing else. */
  predicate Touches(entries: Entries, after: Entries, id: nat, other: nat)
    requires id in entries && other in entries
  {
    var was, newest := entries[other], entries[id];
    && other in after && after[other].(enabled := was.enabled, supersededBy := was.supersededBy) == was
    && (after[other] != was ==> !after[other].enabled && after[other].supersededBy == Some(id))
    && (was.enabled && !after[other].enabled <==>
          newest.source.Trusted() && other != id && was.Authoritative()
          && was.account == newest.account && was.key == newest.key && was.decision != newest.decision)
  }

  lemma SupersedeTouches(entries: Entries, id: nat, other: nat)
    requires id in entries && other in entries
    ensures Touches(entries, Supersede(entries, id), id, other)
  {
  }

  /** `superseded_by_id` is not a state: enabling a superseded entry again leaves the reference in place, so two
      entries may end up superseding each other. */
  lemma SupersededInACircle(key: Key, a: Decision, b: Decision)
    requires a != b
    ensures var first, second := Draft(key, a, [], HumanConfirmed, 1.0), Draft(key, b, [], HumanCorrected, 1.0);
      var end := Exec(map[], [Create(1, "acct", first), Create(2, "acct", second), Update(1, first, true)]);
      && 1 in end && 2 in end && end[1].enabled && !end[2].enabled
      && end[1].supersededBy == Some(2) && end[2].supersededBy == Some(1)
  {
    var first, second := Draft(key, a, [], HumanConfirmed, 1.0), Draft(key, b, [], HumanCorrected, 1.0);
    var calls := [Create(1, "acct", first), Create(2, "acct", second), Update(1, first, true)];
    assert calls[1..] == [Create(2, "acct", second), Update(1, first, true)];
    assert calls[1..][1..] == [Update(1, first, true)] && [Update(1, first, true)][1..] == [];
    var one := Apply(map[], calls[0]);
    var two := Apply(one, calls[1]);
    var three := Apply(two, calls[2]);
    assert Exec(two, [Update(1, first, true)]) == Exec(three, []);
    assert one[1] == Created("acct", first);
    assert two[1] == one[1].(enabled := false, supersededBy := Some(2)) && two[2] == Created("acct", second);
  }

  // ---------------------------------------------------------------- the repository

  class DecisionMemoryRepository {
    var entries: Entries

    constructor ()
      ensures entries == map[]
    {
      entries := map[];
    }

    method SupersedeConflicts(id: nat)
      requires id in entries
      modifies this
      ensures entries == Supersede(old(entries), id)
      ensures forall other <- old(entries) :: Touches(old(entries), entries, id, other)
    {
      var newest := entries[id];
      var before := entries;
      if newest.source != HumanConfirmed && newest.source != HumanCorrected {
        forall other <- before ensures Touches(before, entries, id, other) { SupersedeTouches(before, id, other); }
        return;
      }
      entries := map other | other in before ::
        if other != id && before[other].enabled
           && before[other].account == newest.account && before[other].key == newest.key
           && (before[other].source == HumanConfirmed || before[other].source == HumanCorrected)
           && (before[other].decision.category != newest.decision.category
               || before[other].decision.subcategory != newest.decision.subcategory
               || before[other].decision.importance != newest.decision.importance
               || before[other].decision.urgency != newest.decision.urgency
               || before[other].decision.actionRequired != newest.decision.actionRequired
               || before[other].decision.routingTarget != newest.decision.routingTarget)
        then before[other].(enabled := false, supersededBy := Some(id)) else before[other];
      assert entries == Supersede(before, id);
      forall other <- before ensures Touches(before, entries, id, other) { SupersedeTouches(before, id, other); }
    }

    method CreateEntry(id: nat, account: string, draft: Draft)
      requires id !in entries
      modifies this
      ensures entries == Apply(old(entries), Create(id, account, draft))
    {
      entries := entries[id := Created(account, draft)];
      SupersedeConflicts(id);
    }

    method UpdateEntry(id: nat, draft: Draft, enabled: bool)
      requires id in entries
      modifies this
      ensures entries == Apply(old(entries), Update(id, draft, enabled))
    {
      var e := entries[id];
      e := e.(key := draft.key, decision := draft.decision, tags := draft.tags);
      e := e.(source := draft.source, trust := draft.trust, enabled := enabled);
      entries := entries[id := e];
      if enabled { SupersedeConflicts(id); }
    }

    method DeleteEntry(id: nat)
      requires id in entries
      modifies this
      ensures entries == Apply(old(entries), Delete(id))
      ensures entries.Keys == old(entries).Keys - {id}
      ensures forall other <- entries :: entries[other].(supersededBy := old(entries)[other].supersededBy) == old(entries)[other]
      ensures forall other <- entries ::
        entries[other].supersededBy == (if old(entries)[other].supersededBy == Some(id) then None else old(entries)[other].supersededBy)
    {
      entries := Deleted(entries, id);
    }

    method MarkUsedBy(account: string, id: nat)
      modifies this
      ensures entries == Apply(old(entries), MarkUsed(id, account))
    {
      if id in entries && entries[id].account == account && entries[id].enabled {
        entries := entries[id := entries[id].(hits := entries[id].hits + 1)];
      }
    }
  }
}
