/** Which cluster identifiers are ambiguous, given an injective digest: exactly those of keys with a NUL in the
    destination or inside the category. */
module BulkReviewIdentifiers {
  import opened Common
  import opened BulkRows
  import opened BulkReview

  const ACTIONS: set<string> := {"move", "keep"}

  /** A key as the summary builds it: the category is never empty and the action is one of two words. */
  predicate Built(k: ClusterKey) { k.category != "" && k.action in ACTIONS }

  /** A row of such a key whose sender domain holds no NUL. */
  predicate BuiltRow(row: Row) { Built(row.key) && NUL !in row.domain }

  /** Some split of the joined category and destination gives another built key. */
  predicate Ambiguous(k: ClusterKey)
    requires k.category != ""
  {
    NUL in k.destination || NUL in k.category[1..]
  }

  function Front(k: ClusterKey): string { k.category + [NUL] + k.destination }

  lemma ActionHasNoNul(action: string)
    requires action in ACTIONS
    ensures NUL !in action
  {
  }

  /** What `KeyOf` builds. */
  lemma KeysAreBuilt(p: Proposal)
    ensures Built(KeyOf(p))
  {
  }

  lemma JoinTwo(x: string, y: string)
    ensures Join([x, y]) == x + [NUL] + y
  {
    assert [x, y][1..] == [y];
  }

  lemma JoinThree(k: ClusterKey)
    ensures Join(Fields(k)) == Front(k) + [NUL] + k.action
  {
    assert Fields(k)[1..] == [k.destination, k.action];
    JoinTwo(k.destination, k.action);
    assert k.category + [NUL] + (k.destination + [NUL] + k.action) == Front(k) + [NUL] + k.action;
  }

  lemma JoinFour(c: ChildKey)
    ensures Join(Fields(c.parent) + [c.domain]) == Front(c.parent) + [NUL] + c.parent.action + [NUL] + c.domain
  {
    var k := c.parent;
    var f, g := Fields(k) + [c.domain], [k.destination, k.action, c.domain];
    assert f[1..] == g && g[1..] == [k.action, c.domain];
    JoinTwo(k.action, c.domain);
    assert Join(g) == k.destination + [NUL] + (k.action + [NUL] + c.domain);
    assert k.category + [NUL] + Join(g) == Front(k) + [NUL] + k.action + [NUL] + c.domain;
  }

  /** The last NUL begins the last field. */
  lemma LastField(a: string, b: string, x: string, y: string)
    requires NUL !in x && NUL !in y && a + [NUL] + x == b + [NUL] + y
    ensures a == b && x == y
  {
    var whole := a + [NUL] + x;
    LastNul(whole, a, x);
    LastNul(whole, b, y);
    assert |a| == |b|;
    assert a == whole[..|a|] && b == whole[..|b|] && x == whole[|a| + 1..] && y == whole[|b| + 1..];
  }

  lemma LastNul(whole: string, a: string, x: string)
    requires NUL !in x && whole == a + [NUL] + x
    ensures |a| < |whole| && whole[|a|] == NUL && forall i :: |a| < i < |whole| ==> whole[i] != NUL
  {
    forall i | |a| < i < |whole| ensures whole[i] != NUL { assert whole[i] == x[i - |a| - 1] && x[i - |a| - 1] in x; }
  }

  /** Two keys share an identifier exactly when their actions and their joined category and destination agree. */
  lemma SharedByClusters(digest: string -> string, k: ClusterKey, other: ClusterKey)
    requires Injective(digest) && Built(k) && Built(other)
    ensures ClusterId(digest, k) == ClusterId(digest, other) <==> k.action == other.action && Front(k) == Front(other)
  {
    JoinThree(k);
    JoinThree(other);
    ActionHasNoNul(k.action);
    ActionHasNoNul(other.action);
    if Join(Fields(k)) == Join(Fields(other)) { LastField(Front(k), Front(other), k.action, other.action); }
  }

  /** A cluster and a child share one exactly when the child's domain is the cluster's action and the rest agrees. */
  lemma SharedWithChild(digest: string -> string, k: ClusterKey, c: ChildKey)
    requires Injective(digest) && Built(k) && NUL !in c.domain
    ensures ClusterId(digest, k) == ChildId(digest, c)
       <==> c.domain == k.action && Front(k) == Front(c.parent) + [NUL] + c.parent.action
  {
    JoinThree(k);
    JoinFour(c);
    ActionHasNoNul(k.action);
    var front := Front(c.parent) + [NUL] + c.parent.action;
    if Join(Fields(k)) == Join(Fields(c.parent) + [c.domain]) { LastField(Front(k), front, k.action, c.domain); }
  }

  // ---------------------------------------------------------------- unambiguous keys

  /** In the joined text of an unambiguous key the only NUL after the first character ends the category. */
  lemma OnlySplit(k: ClusterKey, i: nat)
    requires k.category != "" && !Ambiguous(k) && 0 < i < |Front(k)| && i != |k.category|
    ensures Front(k)[i] != NUL
  {
    if i < |k.category| {
      assert Front(k)[i] == k.category[1..][i - 1] && k.category[1..][i - 1] in k.category[1..];
    } else {
      assert Front(k)[i] == k.destination[i - |k.category| - 1] && k.destination[i - |k.category| - 1] in k.destination;
    }
  }

  lemma UnambiguousCluster(k: ClusterKey, other: ClusterKey)
    requires Built(k) && !Ambiguous(k) && Built(other) && Front(k) == Front(other)
    ensures k.category == other.category && k.destination == other.destination
  {
    var n := |other.category|;
    assert Front(other)[n] == NUL;
    if n != |k.category| { OnlySplit(k, n); }
    assert k.category == Front(k)[..n] && other.category == Front(other)[..n];
    assert k.destination == Front(k)[n + 1..] && other.destination == Front(other)[n + 1..];
  }

  lemma UnambiguousChild(k: ClusterKey, c: ChildKey)
    requires Built(k) && !Ambiguous(k) && Built(c.parent)
    ensures Front(k) != Front(c.parent) + [NUL] + c.parent.action
  {
    var whole := Front(c.parent) + [NUL] + c.parent.action;
    var n, m := |c.parent.category|, |Front(c.parent)|;
    assert whole[n] == Front(c.parent)[n] == NUL && whole[m] == NUL && n < m;
    if Front(k) == whole { OnlySplit(k, if n == |k.category| then m else n); }
  }

  lemma UnambiguousRow(digest: string -> string, k: ClusterKey, row: Row)
    requires Injective(digest) && Built(k) && !Ambiguous(k) && BuiltRow(row)
    ensures Selects(digest, row, ClusterId(digest, k)) <==> row.key == k
  {
    SharedByClusters(digest, k, row.key);
    if k.action == row.key.action && Front(k) == Front(row.key) { UnambiguousCluster(k, row.key); }
    SharedWithChild(digest, k, row.Child());
    UnambiguousChild(k, row.Child());
  }

  lemma {:induction false} UnambiguousSelection(digest: string -> string, rows: seq<Row>, k: ClusterKey)
    requires Injective(digest) && Built(k) && !Ambiguous(k) && forall row <- rows :: BuiltRow(row)
    ensures Selected(digest, rows, ClusterId(digest, k)) == Members(rows, ByCluster, ClusterGroup(k))
    decreases |rows|
  {
    if rows != [] {
      assert rows[|rows| - 1] in rows;
      UnambiguousRow(digest, k, rows[|rows| - 1]);
      UnambiguousSelection(digest, rows[..|rows| - 1], k);
    }
  }

  // ---------------------------------------------------------------- ambiguous keys

  /** Another built key with the same identifier. */
  lemma Rival(k: ClusterKey) returns (other: ClusterKey)
    requires Built(k) && Ambiguous(k)
    ensures Built(other) && other != k && other.action == k.action && Front(other) == Front(k)
  {
    if NUL in k.destination {
      var i :| 0 <= i < |k.destination| && k.destination[i] == NUL;
      other := ClusterKey(k.category + [NUL] + k.destination[..i], k.destination[i + 1..], k.action);
      assert k.destination == k.destination[..i] + [NUL] + k.destination[i + 1..];
      assert |other.category| > |k.category|;
    } else {
      var i :| 0 <= i < |k.category[1..]| && k.category[1..][i] == NUL;
      var j := i + 1;
      assert k.category[j] == NUL;
      other := ClusterKey(k.category[..j], k.category[j + 1..] + [NUL] + k.destination, k.action);
      assert k.category == k.category[..j] + [NUL] + k.category[j + 1..];
      assert |other.category| < |k.category|;
    }
  }

  lemma AmbiguousSelection(digest: string -> string, k: ClusterKey) returns (rows: seq<Row>)
    requires Injective(digest) && Built(k) && Ambiguous(k)
    ensures forall row <- rows :: BuiltRow(row)
    ensures Selected(digest, rows, ClusterId(digest, k)) != Members(rows, ByCluster, ClusterGroup(k))
  {
    var other := Rival(k);
    SharedByClusters(digest, k, other);
    var row := Row(0, other, "unknown", false, false, false, Proposed);
    rows := [row];
    assert rows[..0] == [];
    assert Members(rows[..0], ByCluster, ClusterGroup(k)) == [] && Selected(digest, rows[..0], ClusterId(digest, k)) == [];
    assert Members(rows, ByCluster, ClusterGroup(k)) == [];
    assert Selected(digest, rows, ClusterId(digest, k)) == [] + [row];
  }

  /** Selecting by a cluster's identifier returns exactly the cluster, from every list of proposals, if and only if
      there is no NUL in its destination and none after the first character of its category. */
  lemma SelectionExactIff(digest: string -> string, k: ClusterKey)
    requires Injective(digest) && Built(k)
    ensures (forall rows: seq<Row> | (forall row <- rows :: BuiltRow(row)) ::
               Selected(digest, rows, ClusterId(digest, k)) == Members(rows, ByCluster, ClusterGroup(k)))
       <==> !Ambiguous(k)
  {
    if Ambiguous(k) {
      var rows := AmbiguousSelection(digest, k);
    } else {
      forall rows: seq<Row> | forall row <- rows :: BuiltRow(row)
        ensures Selected(digest, rows, ClusterId(digest, k)) == Members(rows, ByCluster, ClusterGroup(k))
      {
        UnambiguousSelection(digest, rows, k);
      }
    }
  }

  /** The rows of listed proposals are of such keys. */
  lemma {:induction false} ListedAreBuilt(listed: seq<Listed>)
    requires forall l <- listed :: NUL !in DomainOf(l.address)
    ensures forall row <- RowsOf(listed) :: BuiltRow(row)
    decreases |listed|
  {
    if listed != [] {
      var last := listed[|listed| - 1];
      assert last in listed;
      KeysAreBuilt(last.proposal);
      ListedAreBuilt(listed[..|listed| - 1]);
    }
  }

  /** So among the proposals the review lists, an unambiguous identifier selects its cluster and nothing else. */
  lemma ListedSelection(digest: string -> string, listed: seq<Listed>, k: ClusterKey)
    requires Injective(digest) && Built(k) && !Ambiguous(k) && forall l <- listed :: NUL !in DomainOf(l.address)
    ensures Selected(digest, RowsOf(listed), ClusterId(digest, k)) == Members(RowsOf(listed), ByCluster, ClusterGroup(k))
  {
    ListedAreBuilt(listed);
    UnambiguousSelection(digest, RowsOf(listed), k);
  }
}
