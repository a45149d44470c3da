/** The review summary said of the proposals themselves: what its figures count, which proposals share a cluster, and
    in what order clusters and children stand. */
module BulkReviewFigures {
  import opened Common
  import opened BulkRows
  import opened BulkReview

  // ---------------------------------------------------------------- figures

  /** What the person sees of a proposal. */
  function Seen(l: Listed): Snapshot { if l.proposal.edited.Some? then l.proposal.edited.value else l.proposal.original }

  /** Positions of the listed proposals of a kind. */
  ghost function Where(listed: seq<Listed>, kind: Listed -> bool): set<nat> {
    set i | 0 <= i < |listed| && kind(listed[i])
  }

  lemma OneMoreWhere(listed: seq<Listed>, l: Listed, kind: Listed -> bool)
    ensures |Where(listed + [l], kind)| == |Where(listed, kind)| + Bit(kind(l))
  {
    assert Where(listed + [l], kind) == Where(listed, kind) + (if kind(l) then {|listed|} else {});
  }

  predicate NeedsReview(l: Listed) { Seen(l).reviewRequired }

  predicate Suspicious(l: Listed) { Seen(l).suspicious }

  predicate Safe(l: Listed) { !Seen(l).reviewRequired && !Seen(l).suspicious }

  predicate Edited(l: Listed) { l.proposal.status == Proposed && l.proposal.edited.Some? }

  function HasStatus(st: Status): Listed -> bool { (l: Listed) => l.proposal.status == st }

  ghost predicate FiguresAre(t: Totals, listed: seq<Listed>, st: Status) {
    && t.count == |listed| && t.review == |Where(listed, NeedsReview)| && t.suspicious == |Where(listed, Suspicious)|
    && t.safe == |Where(listed, Safe)| && t.edited == |Where(listed, Edited)| && t.inStatus == |Where(listed, HasStatus(st))|
  }

  lemma {:induction false} TotalsAreFigures(listed: seq<Listed>, st: Status)
    ensures FiguresAre(TotalsOf(RowsOf(listed), st), listed, st)
    decreases |listed|
  {
    if listed == [] {
      assert forall kind: Listed -> bool :: Where(listed, kind) == {};
    } else {
      var before, last := listed[..|listed| - 1], listed[|listed| - 1];
      assert listed == before + [last];
      TotalsAreFigures(before, st);
      assert RowsOf(listed)[..|listed| - 1] == RowsOf(before);
      OneMoreWhere(before, last, NeedsReview);
      OneMoreWhere(before, last, Suspicious);
      OneMoreWhere(before, last, Safe);
      OneMoreWhere(before, last, Edited);
      OneMoreWhere(before, last, HasStatus(st));
    }
  }

  /** The figures of the summary count the listed proposals by what is seen of them. */
  lemma SummaryFigures(listed: seq<Listed>, s: Summary, st: Status)
    requires IsSummary(RowsOf(listed), s)
    ensures FiguresAre(s.counts.For(st), listed, st)
  {
    TotalsAreFigures(listed, st);
  }

  // ---------------------------------------------------------------- who shares a cluster

  function CategorySeen(l: Listed): string {
    if Category in Seen(l).labels && Seen(l).labels[Category] != "" then Seen(l).labels[Category] else "other"
  }

  function DestinationSeen(l: Listed): string { if Seen(l).folder != "" then Seen(l).folder else Seen(l).sourceFolder }

  /** Two proposals are in one cluster exactly if they are seen to have one category, one destination and one answer to
      whether to move; and in one child if their senders' domains agree too. */
  lemma SharedExactly(a: Listed, b: Listed)
    ensures RowOf(a).key == RowOf(b).key
       <==> CategorySeen(a) == CategorySeen(b) && DestinationSeen(a) == DestinationSeen(b) && Seen(a).doMove == Seen(b).doMove
    ensures RowOf(a).Child() == RowOf(b).Child() <==> RowOf(a).key == RowOf(b).key && DomainOf(a.address) == DomainOf(b.address)
  {
    assert "move" != "keep" by { assert "move"[0] != "keep"[0]; }
  }

  /** And the cluster is named by what they share. */
  lemma NamedByFields(l: Listed)
    ensures RowOf(l).key == ClusterKey(CategorySeen(l), DestinationSeen(l), if Seen(l).doMove then "move" else "keep")
    ensures RowOf(l).id == l.id && RowOf(l).status == l.proposal.status
  {
  }

  /** An address without an at sign, or with nothing after the last one, is of an unknown domain. */
  lemma DomainKnownExactly(address: string)
    ensures '@' !in address ==> DomainOf(address) == "unknown"
    ensures '@' in address && AfterAt(address) != "" ==> DomainOf(address) == AfterAt(address)
    ensures '@' in address && AfterAt(address) == "" ==> DomainOf(address) == "unknown"
  {
  }

  // ---------------------------------------------------------------- order

  lemma {:induction false} GroupOfLevel(rows: seq<Row>, level: Level, g: Group)
    requires Members(rows, level, g) != []
    ensures g.ClusterGroup? <==> level.ByCluster?
    decreases |rows|
  {
    if GroupOf(level, rows[|rows| - 1]) != g { GroupOfLevel(rows[..|rows| - 1], level, g); }
  }

  /** Clusters with more to review first, then with more suspicious proposals, then the larger ones, then by name. */
  lemma ClustersInOrder(rows: seq<Row>, s: Summary, i: nat, j: nat)
    requires IsSummary(rows, s) && i < j < |s.clusters|
    ensures s.clusters[i].group.ClusterGroup? && s.clusters[j].group.ClusterGroup?
    ensures var a, b := s.clusters[i].counts, s.clusters[j].counts;
      && a.review >= b.review
      && (a.review == b.review ==> a.suspicious >= b.suspicious)
      && (a.review == b.review && a.suspicious == b.suspicious ==> a.count >= b.count)
      && (a.review == b.review && a.suspicious == b.suspicious && a.count == b.count ==>
            TextLeq(s.clusters[i].group.cluster.category, s.clusters[j].group.cluster.category))
  {
    assert s.clusters[i] in s.clusters && s.clusters[j] in s.clusters;
    GroupOfLevel(rows, ByCluster, s.clusters[i].group);
    GroupOfLevel(rows, ByCluster, s.clusters[j].group);
    assert RankOf(s.clusters[i]).Leq(RankOf(s.clusters[j]));
    var p, q := s.clusters[i].group.cluster.category, s.clusters[j].group.cluster.category;
    TextReflexive(p);
  }

  lemma {:induction false} TextReflexive(a: string)
    ensures TextLeq(a, a)
    decreases |a|
  {
    if a != "" { TextReflexive(a[1..]); }
  }

  /** Children by size, then by domain; at most fifty of them. */
  lemma ChildrenInOrder(children: seq<Entry>, members: seq<Row>, i: nat, j: nat)
    requires AreChildren(children, members) && i < j < |children|
    ensures children[i].group.ChildGroup? && children[j].group.ChildGroup?
    ensures |children| <= 50 && children[i].counts.count >= children[j].counts.count
    ensures children[i].counts.count == children[j].counts.count ==>
      TextLeq(children[i].group.child.domain, children[j].group.child.domain)
  {
    var all: seq<Entry> :| AreEntries(all, members, ByChild) && Sorted(all)
               && children == if |all| <= CHILD_LIMIT then all else all[..CHILD_LIMIT];
    assert all[i] in all && all[j] in all;
    GroupOfLevel(members, ByChild, all[i].group);
    GroupOfLevel(members, ByChild, all[j].group);
    assert RankOf(all[i]).Leq(RankOf(all[j]));
    TextReflexive(children[i].group.child.domain);
  }
}
