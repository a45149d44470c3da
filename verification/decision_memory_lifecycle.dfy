/** The life of a remembered decision: what a row holds, who may change it, and that a deleted one is never matched. */
module DecisionMemoryLifecycle {
  import opened Common
  import opened DecisionMemoryStore
  import opened DecisionMemoryMatch

  // ---------------------------------------------------------------- deletion

  lemma DeleteRemoves(entries: Entries, id: nat, other: nat)
    ensures var after := Apply(entries, Delete(id));
      && (other in after <==> other in entries && other != id)
      && (other in after ==>
            && after[other].(supersededBy := entries[other].supersededBy) == entries[other]
            && after[other].supersededBy
                 == if entries[other].supersededBy == Some(id) then None else entries[other].supersededBy)
  {
  }

  predicate Recreates(c: Call, id: nat) { c.Create? && c.id == id }

  lemma AbsentStays(entries: Entries, c: Call, id: nat)
    requires id !in entries && !Recreates(c, id)
    ensures id !in Apply(entries, c)
  {
  }

  /** A deleted entry is gone until it is created again. */
  lemma {:induction false} GoneUntilCreated(entries: Entries, calls: seq<Call>, id: nat)
    requires id !in entries && forall c <- calls :: !Recreates(c, id)
    ensures id !in Exec(entries, calls)
    decreases |calls|
  {
    if calls != [] {
      AbsentStays(entries, calls[0], id);
      GoneUntilCreated(Apply(entries, calls[0]), calls[1..], id);
    }
  }

  lemma {:induction false} ExecConcat(entries: Entries, before: seq<Call>, after: seq<Call>)
    ensures Exec(entries, before + after) == Exec(Exec(entries, before), after)
    decreases |before|
  {
    if before == [] {
      assert before + after == after;
    } else {
      assert (before + after)[1..] == before[1..] + after;
      ExecConcat(Apply(entries, before[0]), before[1..], after);
    }
  }

  /** Whatever the calls before and after, a deleted decision is matched by no message, directly or as a hint. */
  lemma DeletedNeverMatched(
    config: Config, e: Email, before: seq<Call>, id: nat, after: seq<Call>, account: string, cs: seq<Candidate>,
    best: Option<Match>)
    requires config.Valid() && forall c <- after :: !Recreates(c, id)
    requires ReadFrom(Exec(map[], before + [Delete(id)] + after), account, cs)
    requires IsFirstBest(Offers(config, e, cs), best) && best.Some?
    ensures best.value.candidate.id != id
  {
    var entries := Exec(map[], before);
    ExecConcat(map[], before, [Delete(id)]);
    ExecConcat(map[], before + [Delete(id)], after);
    assert Exec(entries, [Delete(id)]) == Exec(Apply(entries, Delete(id)), []);
    DeleteRemoves(entries, id, id);
    GoneUntilCreated(Apply(entries, Delete(id)), after, id);
    var i :| 0 <= i < |cs| && Offers(config, e, cs)[i] == best;
    OfferAt(config, e, cs, i);
    assert cs[i] in cs && cs[i].id == best.value.candidate.id;
  }

  // ---------------------------------------------------------------- contents

  /** The row as its owner last wrote it; only its enabling, its uses and its reference are kept elsewhere. */
  predicate Holds(e: Entry, account: string, d: Draft) {
    && e.account == account && e.key == d.key && e.decision == d.decision && e.tags == d.tags
    && e.source == d.source && e.trust == d.trust
  }

  /** What was last written to this entry, and for which account it was created. */
  function LastWritten(entries: Entries, calls: seq<Call>, id: nat, account: string, d: Draft): (string, Draft)
    decreases |calls|
  {
    if calls == [] then (account, d)
    else
      var c, rest := calls[0], Apply(entries, calls[0]);
      if c.Create? && c.id == id && id !in entries then LastWritten(rest, calls[1..], id, c.account, c.draft)
      else if c.Update? && c.id == id then LastWritten(rest, calls[1..], id, account, c.draft)
      else LastWritten(rest, calls[1..], id, account, d)
  }

  lemma CallHolds(entries: Entries, c: Call, id: nat, account: string, d: Draft)
    requires id in entries ==> Holds(entries[id], account, d)
    ensures id in Apply(entries, c) ==>
      if c.Create? && c.id == id && id !in entries then Holds(Apply(entries, c)[id], c.account, c.draft)
      else if c.Update? && c.id == id then Holds(Apply(entries, c)[id], account, c.draft)
      else Holds(Apply(entries, c)[id], account, d)
  {
  }

  /** Over every sequence of calls an entry holds what was last written to it, for the account it was created for. */
  lemma {:induction false} HoldsLastWritten(entries: Entries, calls: seq<Call>, id: nat, account: string, d: Draft)
    requires id in entries ==> Holds(entries[id], account, d)
    ensures id in Exec(entries, calls) ==>
      var (owner, written) := LastWritten(entries, calls, id, account, d); Holds(Exec(entries, calls)[id], owner, written)
    decreases |calls|
  {
    if calls != [] {
      var c := calls[0];
      CallHolds(entries, c, id, account, d);
      if c.Create? && c.id == id && id !in entries {
        HoldsLastWritten(Apply(entries, c), calls[1..], id, c.account, c.draft);
      } else if c.Update? && c.id == id {
        HoldsLastWritten(Apply(entries, c), calls[1..], id, account, c.draft);
      } else {
        HoldsLastWritten(Apply(entries, c), calls[1..], id, account, d);
      }
    }
  }

  // ---------------------------------------------------------------- enabling and uses

  /** A new entry is enabled; an update enables or disables as it says; otherwise an entry is only ever disabled, by a
      newer trusted one of its account and identity that decides otherwise. */
  lemma EnabledBy(entries: Entries, c: Call, id: nat)
    requires id in Apply(entries, c)
    ensures var after := Apply(entries, c);
      if c.Create? && c.id == id && id !in entries then after[id].enabled
      else if c.Update? && c.id == id then after[id].enabled == c.enabled
      else id in entries && (after[id].enabled ==> entries[id].enabled)
           && (entries[id].enabled && !after[id].enabled ==>
                 && (c.Create? || (c.Update? && c.enabled)) && c.id in after && after[c.id].Authoritative()
                 && after[c.id].account == entries[id].account && after[c.id].key == entries[id].key
                 && after[c.id].decision != entries[id].decision && after[id].supersededBy == Some(c.id))
  {
  }

  /** Uses of the entry by its own account while it is enabled. */
  predicate Uses(entries: Entries, c: Call, id: nat) {
    c.MarkUsed? && c.id == id && id in entries && entries[id].account == c.account && entries[id].enabled
  }

  function UsesIn(entries: Entries, calls: seq<Call>, id: nat): nat
    decreases |calls|
  {
    if calls == [] then 0
    else (if Uses(entries, calls[0], id) then 1 else 0) + UsesIn(Apply(entries, calls[0]), calls[1..], id)
  }

  predicate Deletes(c: Call, id: nat) { c.Delete? && c.id == id }

  /** While an entry lives its hits are its uses. */
  lemma {:induction false} HitsAreUses(entries: Entries, calls: seq<Call>, id: nat)
    requires id in entries && forall c <- calls :: !Deletes(c, id)
    ensures id in Exec(entries, calls) && Exec(entries, calls)[id].hits == entries[id].hits + UsesIn(entries, calls, id)
    decreases |calls|
  {
    if calls != [] {
      CallHits(entries, calls[0], id);
      HitsAreUses(Apply(entries, calls[0]), calls[1..], id);
    }
  }

  lemma CallHits(entries: Entries, c: Call, id: nat)
    requires id in entries && !Deletes(c, id)
    ensures id in Apply(entries, c)
    ensures Apply(entries, c)[id].hits == entries[id].hits + (if Uses(entries, c, id) then 1 else 0)
  {
  }

  lemma NewHasNoHits(entries: Entries, id: nat, account: string, d: Draft)
    requires id !in entries
    ensures var after := Apply(entries, Create(id, account, d));
      id in after && after[id].hits == 0 && after[id].supersededBy.None? && after[id].enabled
  {
  }
}
