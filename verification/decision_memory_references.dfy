/** `superseded_by_id` followed from entry to entry: exactly which call closes a circle. */
module DecisionMemoryReferences {
  import opened Common
  import opened DecisionMemoryStore

  function Next(entries: Entries, id: nat): Option<nat> {
    if id in entries then entries[id].supersededBy else None
  }

  /** The entry reached by following n references. */
  function Follow(entries: Entries, id: nat, n: nat): Option<nat>
    decreases n
  {
    if n == 0 then Some(id)
    else match Next(entries, id)
      case None => None
      case Some(next) => Follow(entries, next, n - 1)
  }

  ghost predicate Acyclic(entries: Entries) {
    forall id: nat, n: nat :: n > 0 ==> Follow(entries, id, n) != Some(id)
  }

  ghost predicate Reaches(entries: Entries, id: nat, other: nat) {
    exists n: nat :: n > 0 && Follow(entries, id, n) == Some(other)
  }

  /** The entries superseding `id` disables. */
  function Disabled(entries: Entries, id: nat): set<nat>
    requires id in entries
  {
    if !entries[id].source.Trusted() then {}
    else set other | other in entries && other != id && Conflicts(entries[other], entries[id])
  }

  /** The call enables `id` again while its references lead to an entry the call disables. */
  ghost predicate Closes(entries: Entries, c: Call) {
    && c.Update? && c.enabled && c.id in entries
    && exists other <- Disabled(entries[c.id := Written(entries[c.id], c.draft, true)], c.id) :: Reaches(entries, c.id, other)
  }

  // ---------------------------------------------------------------- following references

  lemma {:induction false} FollowSum(entries: Entries, id: nat, n: nat, m: nat)
    requires Follow(entries, id, n).Some?
    ensures Follow(entries, id, n + m) == Follow(entries, Follow(entries, id, n).value, m)
    decreases n
  {
    if n > 0 { FollowSum(entries, Next(entries, id).value, n - 1, m); }
  }

  /** Fewer references lead nowhere new. */
  lemma {:induction false} FollowFewer(more: Entries, fewer: Entries, id: nat, n: nat)
    requires forall x: nat :: Next(fewer, x).None? || Next(fewer, x) == Next(more, x)
    ensures Follow(fewer, id, n).Some? ==> Follow(more, id, n) == Follow(fewer, id, n)
    decreases n
  {
    if n > 0 && Next(fewer, id).Some? { FollowFewer(more, fewer, Next(fewer, id).value, n - 1); }
  }

  lemma FewerStaysAcyclic(more: Entries, fewer: Entries)
    requires Acyclic(more) && forall x: nat :: Next(fewer, x).None? || Next(fewer, x) == Next(more, x)
    ensures Acyclic(fewer)
  {
    forall id: nat, n: nat | n > 0 ensures Follow(fewer, id, n) != Some(id) {
      FollowFewer(more, fewer, id, n);
      assert Follow(more, id, n) != Some(id);
    }
  }

  /** References change at `changed` only: a walk is the same until it stands on one of them. */
  lemma {:induction false} SameUntil(before: Entries, after: Entries, changed: set<nat>, id: nat, n: nat) returns (at: nat)
    requires forall x: nat :: x !in changed ==> Next(after, x) == Next(before, x)
    ensures at <= n
    ensures at == n ==> Follow(after, id, n) == Follow(before, id, n)
    ensures at < n ==> Follow(before, id, at).Some? && Follow(before, id, at).value in changed
                       && Follow(after, id, at) == Follow(before, id, at)
    decreases n
  {
    if n == 0 || id in changed {
      at := 0;
    } else if Next(before, id).None? {
      at := n;
    } else {
      var rest := SameUntil(before, after, changed, Next(before, id).value, n - 1);
      at := rest + 1;
    }
  }

  // ---------------------------------------------------------------- superseding

  lemma SupersedeRedirects(entries: Entries, id: nat)
    requires id in entries
    ensures forall x: nat ::
      Next(Supersede(entries, id), x) == if x in Disabled(entries, id) then Some(id) else Next(entries, x)
  {
  }

  /** A walk that stands on a disabled entry comes back to the superseding one. */
  lemma DisabledLeadsBack(entries: Entries, id: nat, x: nat, at: nat)
    requires id in entries
    requires var o := Follow(Supersede(entries, id), x, at); o.Some? && o.value in Disabled(entries, id)
    ensures Follow(Supersede(entries, id), x, at + 1) == Some(id)
  {
    var after := Supersede(entries, id);
    SupersedeRedirects(entries, id);
    FollowSum(after, x, at, 1);
    var o := Follow(after, x, at).value;
    assert Follow(after, id, 0) == Some(id);
    assert Follow(after, o, 1) == Follow(after, id, 0);
  }

  lemma ReachingCloses(entries: Entries, id: nat, other: nat)
    requires id in entries && other in Disabled(entries, id) && Reaches(entries, id, other)
    ensures !Acyclic(Supersede(entries, id))
  {
    var after := Supersede(entries, id);
    var n: nat :| n > 0 && Follow(entries, id, n) == Some(other);
    SupersedeRedirects(entries, id);
    var at := SameUntil(entries, after, Disabled(entries, id), id, n);
    DisabledLeadsBack(entries, id, id, at);
  }

  /** A circle made by the call leads through the entry it enables. */
  lemma CircleAtId(entries: Entries, id: nat) returns (n: nat)
    requires id in entries && Acyclic(entries) && !Acyclic(Supersede(entries, id))
    ensures n > 0 && Follow(Supersede(entries, id), id, n) == Some(id)
  {
    var after, disabled := Supersede(entries, id), Disabled(entries, id);
    SupersedeRedirects(entries, id);
    var x: nat, k: nat :| k > 0 && Follow(after, x, k) == Some(x);
    n := k;
    var at := SameUntil(entries, after, disabled, x, n);
    assert at < n by { assert Follow(entries, x, n) != Some(x); }
    DisabledLeadsBack(entries, id, x, at);
    FollowSum(after, x, at + 1, n - at - 1);
    FollowSum(after, id, n - at - 1, at + 1);
  }

  lemma ClosedWasReaching(entries: Entries, id: nat)
    requires id in entries && Acyclic(entries) && !Acyclic(Supersede(entries, id))
    ensures exists other <- Disabled(entries, id) :: Reaches(entries, id, other)
  {
    var after, disabled := Supersede(entries, id), Disabled(entries, id);
    SupersedeRedirects(entries, id);
    var n := CircleAtId(entries, id);
    var back := SameUntil(entries, after, disabled, id, n);
    assert back < n by { assert Follow(entries, id, n) != Some(id); }
    var other := Follow(entries, id, back).value;
    assert id !in disabled && back > 0;
    assert Reaches(entries, id, other);
  }

  // ---------------------------------------------------------------- every call, every run

  lemma NoReferenceNoReach(entries: Entries, id: nat)
    requires Next(entries, id).None?
    ensures forall other: nat :: !Reaches(entries, id, other)
  {
  }

  lemma SameReferences(entries: Entries, entries': Entries)
    requires forall x: nat :: Next(entries', x) == Next(entries, x)
    ensures Acyclic(entries') <==> Acyclic(entries)
    ensures forall id: nat, other: nat :: Reaches(entries', id, other) <==> Reaches(entries, id, other)
  {
    forall id: nat, n: nat ensures Follow(entries', id, n) == Follow(entries, id, n) {
      FollowFewer(entries, entries', id, n);
      FollowFewer(entries', entries, id, n);
    }
  }

  /** A call closes a circle if and only if it enables an entry whose references lead to one the call disables. */
  lemma ClosesExactly(entries: Entries, c: Call)
    requires Acyclic(entries)
    ensures Acyclic(Apply(entries, c)) <==> !Closes(entries, c)
  {
    match c
    case Create(id, account, draft) =>
      if id !in entries {
        var created := entries[id := Created(account, draft)];
        SameReferences(entries, created);
        NoReferenceNoReach(created, id);
        if !Acyclic(Supersede(created, id)) { ClosedWasReaching(created, id); }
      }
    case Update(id, draft, enabled) =>
      if id in entries {
        var written := entries[id := Written(entries[id], draft, enabled)];
        SameReferences(entries, written);
        if enabled {
          if !Acyclic(Supersede(written, id)) { ClosedWasReaching(written, id); }
          if other :| other in Disabled(written, id) && Reaches(written, id, other) { ReachingCloses(written, id, other); }
        }
      }
    case Delete(id) => FewerStaysAcyclic(entries, Deleted(entries, id));
    case MarkUsed(id, account) => SameReferences(entries, Apply(entries, c));
  }

  ghost predicate AlwaysAcyclic(entries: Entries, calls: seq<Call>)
    decreases |calls|
  {
    Acyclic(entries) && (calls == [] || AlwaysAcyclic(Apply(entries, calls[0]), calls[1..]))
  }

  ghost predicate NeverCloses(entries: Entries, calls: seq<Call>)
    decreases |calls|
  {
    calls == [] || (!Closes(entries, calls[0]) && NeverCloses(Apply(entries, calls[0]), calls[1..]))
  }

  /** No state of a run has a circle if and only if no call of the run closes one. */
  lemma {:induction false} AcyclicIff(entries: Entries, calls: seq<Call>)
    requires Acyclic(entries)
    ensures AlwaysAcyclic(entries, calls) <==> NeverCloses(entries, calls)
    decreases |calls|
  {
    if calls != [] {
      ClosesExactly(entries, calls[0]);
      if !Closes(entries, calls[0]) { AcyclicIff(Apply(entries, calls[0]), calls[1..]); }
    }
  }

  /** No call enables an entry that carries a reference. */
  ghost predicate NeverRevives(entries: Entries, calls: seq<Call>)
    decreases |calls|
  {
    calls == []
    || ((calls[0].Update? && calls[0].enabled ==> Next(entries, calls[0].id).None?)
        && NeverRevives(Apply(entries, calls[0]), calls[1..]))
  }

  lemma {:induction false} NotRevivedNotClosed(entries: Entries, calls: seq<Call>)
    requires NeverRevives(entries, calls)
    ensures NeverCloses(entries, calls)
    decreases |calls|
  {
    if calls != [] {
      NotRevivedNotClosed(Apply(entries, calls[0]), calls[1..]);
      if calls[0].Update? && calls[0].enabled { NoReferenceNoReach(entries, calls[0].id); }
    }
  }

  /** From an empty table, as long as no superseded entry is enabled again, references never form a circle. */
  lemma AcyclicWithoutRevival(calls: seq<Call>)
    requires NeverRevives(map[], calls)
    ensures AlwaysAcyclic(map[], calls)
  {
    NotRevivedNotClosed(map[], calls);
    AcyclicIff(map[], calls);
  }
}
