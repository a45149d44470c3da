/** Review clusters: grouping proposals by category, destination and action, and by sender domain inside, with
    counts; and the selection of a cluster by its identifier. */
module BulkReview {
  import opened Common
  import opened BulkRows

  // ---------------------------------------------------------------- keys

  datatype ClusterKey = ClusterKey(category: string, destination: string, action: string)

  datatype ChildKey = ChildKey(parent: ClusterKey, domain: string)

  function OrElse(s: string, fallback: string): string { if s == "" then fallback else s }

  function CategoryOf(s: Snapshot): string { if Category in s.labels then s.labels[Category] else "" }

  /** The part after the last at sign. */
  function AfterAt(s: string): string {
    if '@' !in s then s else if s[0] == '@' && '@' !in s[1..] then s[1..] else AfterAt(s[1..])
  }

  function DomainOf(address: string): string {
    if '@' !in address then "unknown" else OrElse(AfterAt(address), "unknown")
  }

  /** What follows the last at sign, and nothing else, is the domain. */
  lemma {:induction false} DomainFollowsLastAt(address: string)
    requires '@' in address
    ensures '@' !in AfterAt(address)
    ensures exists i :: 0 <= i < |address| && address[i] == '@' && AfterAt(address) == address[i + 1..]
    decreases |address|
  {
    if address[0] == '@' && '@' !in address[1..] {
      assert AfterAt(address) == address[0 + 1..];
    } else {
      DomainFollowsLastAt(address[1..]);
      var i :| 0 <= i < |address[1..]| && address[1..][i] == '@' && AfterAt(address[1..]) == address[1..][i + 1..];
      assert address[i + 1] == '@' && address[1..][i + 1..] == address[i + 1 + 1..];
    }
  }

  function KeyOf(p: Proposal): ClusterKey {
    var s := p.Effective();
    ClusterKey(OrElse(CategoryOf(s), "other"), OrElse(s.folder, s.sourceFolder), if s.doMove then "move" else "keep")
  }

  /** What the review reads of a proposal. */
  datatype Row = Row(
    id: nat, key: ClusterKey, domain: string, review: bool, suspicious: bool, edited: bool, status: Status)
  {
    function Child(): ChildKey { ChildKey(key, domain) }
  }

  /** A proposal as listed, with its parsed sender address. */
  datatype Listed = Listed(id: nat, proposal: Proposal, address: string)

  function RowOf(l: Listed): Row {
    var p, s := l.proposal, l.proposal.Effective();
    Row(l.id, KeyOf(p), DomainOf(l.address), s.reviewRequired, s.suspicious, p.status == Proposed && p.edited.Some?, p.status)
  }

  function RowsOf(listed: seq<Listed>): (rows: seq<Row>)
    ensures |rows| == |listed|
  {
    if listed == [] then [] else RowsOf(listed[..|listed| - 1]) + [RowOf(listed[|listed| - 1])]
  }

  /** The two levels of grouping. */
  datatype Level = ByCluster | ByChild

  datatype Group = ClusterGroup(cluster: ClusterKey) | ChildGroup(child: ChildKey)

  function GroupOf(level: Level, row: Row): Group {
    if level.ByCluster? then ClusterGroup(row.key) else ChildGroup(row.Child())
  }

  /** The members of a group, in order. */
  function Members(rows: seq<Row>, level: Level, g: Group): seq<Row> {
    if rows == [] then []
    else
      var last := rows[|rows| - 1];
      var before := Members(rows[..|rows| - 1], level, g);
      if GroupOf(level, last) == g then before + [last] else before
  }

  // ---------------------------------------------------------------- identifiers

  const NUL: char := '\0'

  function Join(fields: seq<string>): string {
    if fields == [] then "" else if |fields| == 1 then fields[0] else fields[0] + [NUL] + Join(fields[1..])
  }

  function Fields(k: ClusterKey): seq<string> { [k.category, k.destination, k.action] }

  function ClusterId(digest: string -> string, k: ClusterKey): string { digest(Join(Fields(k))) }

  function ChildId(digest: string -> string, k: ChildKey): string { digest(Join(Fields(k.parent) + [k.domain])) }

  ghost predicate Injective(digest: string -> string) {
    forall x, y :: digest(x) == digest(y) ==> x == y
  }

  predicate NulFree(fields: seq<string>) { forall f <- fields :: NUL !in f }

  /** The first NUL ends the first field. */
  lemma NulPosition(whole: string, a: string, x: string)
    requires NUL !in a && whole == a + [NUL] + x
    ensures |a| < |whole| && whole[|a|] == NUL && forall i :: 0 <= i < |a| ==> whole[i] != NUL
  {
    forall i | 0 <= i < |a| ensures whole[i] != NUL { assert whole[i] == a[i] && a[i] in a; }
  }

  lemma FirstField(a: string, b: string, x: string, y: string)
    requires NUL !in a && NUL !in b && a + [NUL] + x == b + [NUL] + y
    ensures a == b && x == y
  {
    var whole := a + [NUL] + x;
    NulPosition(whole, a, x);
    NulPosition(whole, b, y);
    assert |a| == |b|;
    assert a == whole[..|a|] && b == whole[..|b|] && x == whole[|a| + 1..] && y == whole[|b| + 1..];
  }

  lemma HoldsNul(before: string, after: string)
    ensures NUL in before + [NUL] + after
  {
    assert (before + [NUL] + after)[|before|] == NUL;
  }

  /** Joining fields without NUL loses nothing, not even how many there were. */
  lemma {:induction false} JoinInjective(a: seq<string>, b: seq<string>)
    requires a != [] && b != [] && NulFree(a) && NulFree(b) && Join(a) == Join(b)
    ensures a == b
    decreases |a|
  {
    if |a| > 1 && |b| > 1 {
      FirstField(a[0], b[0], Join(a[1..]), Join(b[1..]));
      JoinInjective(a[1..], b[1..]);
      assert a == [a[0]] + a[1..] && b == [b[0]] + b[1..];
    } else if |a| > 1 {
      HoldsNul(a[0], Join(a[1..]));
    } else if |b| > 1 {
      HoldsNul(b[0], Join(b[1..]));
    }
  }

  predicate Selects(digest: string -> string, row: Row, id: string) {
    ClusterId(digest, row.key) == id || ChildId(digest, row.Child()) == id
  }

  function Selected(digest: string -> string, rows: seq<Row>, id: string): seq<Row> {
    if rows == [] then []
    else
      var before := Selected(digest, rows[..|rows| - 1], id);
      if Selects(digest, rows[|rows| - 1], id) then before + [rows[|rows| - 1]] else before
  }

  method SelectClusterProposals(digest: string -> string, rows: seq<Row>, id: string) returns (selected: seq<Row>)
    ensures selected == Selected(digest, rows, id)
  {
    selected := [];
    for i := 0 to |rows|
      invariant selected == Selected(digest, rows[..i], id)
    {
      assert rows[..i + 1][..i] == rows[..i];
      if ClusterId(digest, rows[i].key) == id || ChildId(digest, rows[i].Child()) == id {
        selected := selected + [rows[i]];
      }
    }
    assert rows[..|rows|] == rows;
  }

  predicate CleanKey(k: ClusterKey) { NulFree(Fields(k)) }

  predicate CleanRow(row: Row) { CleanKey(row.key) && NUL !in row.domain }

  lemma SameCluster(digest: string -> string, row: Row, k: ClusterKey)
    requires Injective(digest) && CleanRow(row) && CleanKey(k)
    ensures Selects(digest, row, ClusterId(digest, k)) <==> row.key == k
  {
    if ClusterId(digest, row.key) == ClusterId(digest, k) { JoinInjective(Fields(row.key), Fields(k)); }
    if ChildId(digest, row.Child()) == ClusterId(digest, k) { JoinInjective(Fields(row.key) + [row.domain], Fields(k)); }
  }

  lemma SameChild(digest: string -> string, row: Row, k: ChildKey)
    requires Injective(digest) && CleanRow(row) && CleanKey(k.parent) && NUL !in k.domain
    ensures Selects(digest, row, ChildId(digest, k)) <==> row.Child() == k
  {
    if ClusterId(digest, row.key) == ChildId(digest, k) { JoinInjective(Fields(row.key), Fields(k.parent) + [k.domain]); }
    if ChildId(digest, row.Child()) == ChildId(digest, k) {
      var a, b := Fields(row.key) + [row.domain], Fields(k.parent) + [k.domain];
      JoinInjective(a, b);
      assert a[0] == b[0] && a[1] == b[1] && a[2] == b[2] && a[3] == b[3];
    }
  }

  function IdOf(digest: string -> string, g: Group): string {
    if g.ClusterGroup? then ClusterId(digest, g.cluster) else ChildId(digest, g.child)
  }

  predicate CleanGroup(g: Group) {
    if g.ClusterGroup? then CleanKey(g.cluster) else CleanKey(g.child.parent) && NUL !in g.child.domain
  }

  /** Selecting by a cluster's or a child's identifier returns exactly its members, if the digest is injective
      and no field holds a NUL. */
  lemma {:induction false} SelectionIsTheGroup(digest: string -> string, rows: seq<Row>, g: Group)
    requires Injective(digest) && (forall row <- rows :: CleanRow(row)) && CleanGroup(g)
    ensures Selected(digest, rows, IdOf(digest, g)) == Members(rows, if g.ClusterGroup? then ByCluster else ByChild, g)
    decreases |rows|
  {
    if rows != [] {
      assert rows[|rows| - 1] in rows;
      if g.ClusterGroup? { SameCluster(digest, rows[|rows| - 1], g.cluster); } else { SameChild(digest, rows[|rows| - 1], g.child); }
      SelectionIsTheGroup(digest, rows[..|rows| - 1], g);
    }
  }

  /** A cluster and a child of another cluster that share an identifier under every digest. */
  lemma NulCollides(digest: string -> string)
    ensures ClusterId(digest, ClusterKey("a", "b\0move", "keep"))
         == ChildId(digest, ChildKey(ClusterKey("a", "b", "move"), "keep"))
  {
    var p, q := ["a", "b\0move", "keep"], ["a", "b", "move", "keep"];
    assert p[1..] == ["b\0move", "keep"] && p[1..][1..] == ["keep"];
    assert q[1..] == ["b", "move", "keep"] && q[1..][1..] == ["move", "keep"] && q[1..][1..][1..] == ["keep"];
    assert Join(p) == "a" + [NUL] + ("b\0move" + [NUL] + "keep");
    assert Join(q) == "a" + [NUL] + ("b" + [NUL] + ("move" + [NUL] + "keep"));
    assert Join(p) == Join(q);
    assert Fields(ClusterKey("a", "b", "move")) + ["keep"] == q;
  }

  // ---------------------------------------------------------------- totals

  /** Counts of a list of rows; the last is of the rows in one given status. */
  datatype Totals = Totals(count: nat, review: nat, suspicious: nat, safe: nat, edited: nat, inStatus: nat)

  function Plus(a: Totals, b: Totals): Totals {
    Totals(a.count + b.count, a.review + b.review, a.suspicious + b.suspicious, a.safe + b.safe, a.edited + b.edited,
      a.inStatus + b.inStatus)
  }

  function Bit(b: bool): nat { if b then 1 else 0 }

  function OneRow(row: Row, st: Status): Totals {
    Totals(1, Bit(row.review), Bit(row.suspicious), Bit(!row.review && !row.suspicious), Bit(row.edited), Bit(row.status == st))
  }

  function TotalsOf(rows: seq<Row>, st: Status): Totals {
    if rows == [] then Totals(0, 0, 0, 0, 0, 0) else Plus(TotalsOf(rows[..|rows| - 1], st), OneRow(rows[|rows| - 1], st))
  }

  /** The summary's own form: one dictionary of status counts. */
  datatype Counts = Counts(count: nat, review: nat, suspicious: nat, safe: nat, edited: nat, statuses: map<Status, nat>) {
    function For(st: Status): Totals {
      Totals(count, review, suspicious, safe, edited, if st in statuses then statuses[st] else 0)
    }
  }

  function Tallied(c: Counts, row: Row): Counts {
    Counts(c.count + 1, c.review + Bit(row.review), c.suspicious + Bit(row.suspicious),
      c.safe + Bit(!row.review && !row.suspicious), c.edited + Bit(row.edited),
      c.statuses[row.status := 1 + if row.status in c.statuses then c.statuses[row.status] else 0])
  }

  lemma TalliedFor(c: Counts, row: Row, st: Status)
    ensures Tallied(c, row).For(st) == Plus(c.For(st), OneRow(row, st))
  {
  }

  method CountRows(rows: seq<Row>) returns (counts: Counts)
    ensures forall st :: counts.For(st) == TotalsOf(rows, st)
  {
    counts := Counts(0, 0, 0, 0, 0, map[]);
    for i := 0 to |rows|
      invariant forall st :: counts.For(st) == TotalsOf(rows[..i], st)
    {
      assert rows[..i + 1][..i] == rows[..i];
      forall st ensures Tallied(counts, rows[i]).For(st) == TotalsOf(rows[..i + 1], st) {
        TalliedFor(counts, rows[i], st);
      }
      counts := Tallied(counts, rows[i]);
    }
    assert rows[..|rows|] == rows;
  }

  // ---------------------------------------------------------------- partition

  /** The groups are distinct and every row's group is among them. */
  ghost predicate Covers(groups: seq<Group>, rows: seq<Row>, level: Level) {
    && (forall i, j :: 0 <= i < j < |groups| ==> groups[i] != groups[j])
    && (forall row <- rows :: GroupOf(level, row) in groups)
  }

  function SumByGroup(groups: seq<Group>, rows: seq<Row>, level: Level, st: Status): Totals {
    if groups == [] then Totals(0, 0, 0, 0, 0, 0)
    else Plus(SumByGroup(groups[..|groups| - 1], rows, level, st), TotalsOf(Members(rows, level, groups[|groups| - 1]), st))
  }

  lemma {:induction false} SumOfNothing(groups: seq<Group>, rows: seq<Row>, level: Level, st: Status)
    requires rows == []
    ensures SumByGroup(groups, rows, level, st) == Totals(0, 0, 0, 0, 0, 0)
    decreases |groups|
  {
    if groups != [] { SumOfNothing(groups[..|groups| - 1], rows, level, st); }
  }

  lemma GroupOneMore(rows: seq<Row>, row: Row, level: Level, g: Group, st: Status)
    ensures Members(rows + [row], level, g)
         == if GroupOf(level, row) == g then Members(rows, level, g) + [row] else Members(rows, level, g)
    ensures TotalsOf(Members(rows + [row], level, g), st)
         == Plus(TotalsOf(Members(rows, level, g), st), OneIf(GroupOf(level, row) == g, row, st))
  {
    assert (rows + [row])[..|rows|] == rows;
    var group := Members(rows, level, g);
    assert (group + [row])[..|group|] == group;
  }

  function OneIf(b: bool, row: Row, st: Status): Totals {
    if b then OneRow(row, st) else Totals(0, 0, 0, 0, 0, 0)
  }

  lemma PlusSwap(a: Totals, b: Totals, row: Row, st: Status, inA: bool, inB: bool)
    requires !(inA && inB)
    ensures Plus(Plus(a, OneIf(inA, row, st)), Plus(b, OneIf(inB, row, st))) == Plus(Plus(a, b), OneIf(inA || inB, row, st))
  {
  }

  /** One more row adds itself to the one group it belongs to. */
  lemma {:induction false} SumOneMore(groups: seq<Group>, rows: seq<Row>, row: Row, level: Level, st: Status)
    requires forall i, j :: 0 <= i < j < |groups| ==> groups[i] != groups[j]
    ensures SumByGroup(groups, rows + [row], level, st)
         == Plus(SumByGroup(groups, rows, level, st), OneIf(GroupOf(level, row) in groups, row, st))
    decreases |groups|
  {
    if groups != [] {
      var before, last := groups[..|groups| - 1], groups[|groups| - 1];
      var g := GroupOf(level, row);
      assert groups == before + [last];
      SumOneMore(before, rows, row, level, st);
      GroupOneMore(rows, row, level, last, st);
      PlusSwap(SumByGroup(before, rows, level, st), TotalsOf(Members(rows, level, last), st), row, st, g in before, g == last);
    }
  }

  /** Every total over the rows is the sum of that total over the groups. */
  lemma {:induction false} GroupsSumToWhole(groups: seq<Group>, rows: seq<Row>, level: Level, st: Status)
    requires Covers(groups, rows, level)
    ensures SumByGroup(groups, rows, level, st) == TotalsOf(rows, st)
    decreases |rows|
  {
    if rows == [] {
      SumOfNothing(groups, rows, level, st);
    } else {
      var before, last := rows[..|rows| - 1], rows[|rows| - 1];
      assert rows == before + [last] && last in rows;
      GroupsSumToWhole(groups, before, level, st);
      SumOneMore(groups, before, last, level, st);
    }
  }

  /** The lists of the dictionary. */
  ghost predicate Lists(groups: map<Group, seq<Row>>, rows: seq<Row>, level: Level) {
    forall g <- groups :: groups[g] == Members(rows, level, g) && groups[g] != []
  }

  /** A dictionary of lists, its keys in order of first appearance. */
  ghost predicate Grouped(order: seq<Group>, groups: map<Group, seq<Row>>, rows: seq<Row>, level: Level) {
    && Covers(order, rows, level)
    && (forall g <- order :: g in groups)
    && (forall g <- groups :: g in order) && Lists(groups, rows, level)
  }

  lemma {:induction false} NoMembers(rows: seq<Row>, level: Level, g: Group)
    requires forall row <- rows :: GroupOf(level, row) != g
    ensures Members(rows, level, g) == []
    decreases |rows|
  {
    if rows != [] {
      assert rows[|rows| - 1] in rows;
      NoMembers(rows[..|rows| - 1], level, g);
    }
  }

  lemma OneMoreMember(rows: seq<Row>, row: Row, level: Level, g: Group)
    ensures Members(rows + [row], level, g)
         == if GroupOf(level, row) == g then Members(rows, level, g) + [row] else Members(rows, level, g)
  {
    assert (rows + [row])[..|rows|] == rows;
  }

  lemma MembersOneMore(groups: map<Group, seq<Row>>, rows: seq<Row>, row: Row, level: Level, h: Group)
    requires forall g <- groups :: groups[g] == Members(rows, level, g) && groups[g] != []
    requires h in groups || (h == GroupOf(level, row) && Members(rows, level, h) == [])
    ensures Members(rows + [row], level, h)
         == (if h in groups then groups[h] else []) + (if h == GroupOf(level, row) then [row] else [])
  {
    OneMoreMember(rows, row, level, h);
  }

  lemma CoversOneMore(order: seq<Group>, rows: seq<Row>, row: Row, level: Level)
    requires Covers(order, rows, level)
    ensures Covers(if GroupOf(level, row) in order then order else order + [GroupOf(level, row)], rows + [row], level)
  {
  }

  lemma ListsOneMore(groups: map<Group, seq<Row>>, rows: seq<Row>, row: Row, level: Level)
    requires Lists(groups, rows, level)
    requires var g := GroupOf(level, row); g in groups || Members(rows, level, g) == []
    ensures var g := GroupOf(level, row);
      Lists(groups[g := (if g in groups then groups[g] else []) + [row]], rows + [row], level)
  {
    var g := GroupOf(level, row);
    var groups' := groups[g := (if g in groups then groups[g] else []) + [row]];
    forall h <- groups' ensures groups'[h] == Members(rows + [row], level, h) && groups'[h] != [] {
      MembersOneMore(groups, rows, row, level, h);
    }
  }

  lemma GroupedOneMore(order: seq<Group>, groups: map<Group, seq<Row>>, rows: seq<Row>, row: Row, level: Level)
    requires Grouped(order, groups, rows, level)
    ensures var g := GroupOf(level, row);
      Grouped(if g in groups then order else order + [g],
        groups[g := (if g in groups then groups[g] else []) + [row]], rows + [row], level)
  {
    var g := GroupOf(level, row);
    CoversOneMore(order, rows, row, level);
    if g !in groups {
      assert g !in order;
      NoMembers(rows, level, g);
    }
    ListsOneMore(groups, rows, row, level);
  }

  /** Append a row to its list, or start one. */
  method AppendRow(order: seq<Group>, groups: map<Group, seq<Row>>, row: Row, level: Level, ghost rows: seq<Row>)
    returns (order': seq<Group>, groups': map<Group, seq<Row>>)
    requires Grouped(order, groups, rows, level)
    ensures Grouped(order', groups', rows + [row], level)
  {
    GroupedOneMore(order, groups, rows, row, level);
    var g := GroupOf(level, row);
    if g in groups {
      order', groups' := order, groups[g := groups[g] + [row]];
    } else {
      assert [] + [row] == [row];
      order', groups' := order + [g], groups[g := [row]];
    }
  }

  method GroupRows(rows: seq<Row>, level: Level) returns (order: seq<Group>, groups: map<Group, seq<Row>>)
    ensures Grouped(order, groups, rows, level)
  {
    order, groups := [], map[];
    for i := 0 to |rows|
      invariant Grouped(order, groups, rows[..i], level)
    {
      assert rows[..i + 1] == rows[..i] + [rows[i]];
      order, groups := AppendRow(order, groups, rows[i], level, rows[..i]);
    }
    assert rows[..|rows|] == rows;
  }

  // ---------------------------------------------------------------- order

  predicate TextLeq(a: string, b: string) {
    a == "" || (b != "" && (a[0] < b[0] || (a[0] == b[0] && TextLeq(a[1..], b[1..]))))
  }

  lemma {:induction false} TextTotal(a: string, b: string)
    ensures TextLeq(a, b) || TextLeq(b, a)
    ensures TextLeq(a, b) && TextLeq(b, a) ==> a == b
    decreases |a|
  {
    if a != "" && b != "" && a[0] == b[0] {
      TextTotal(a[1..], b[1..]);
      assert a == [a[0]] + a[1..] && b == [b[0]] + b[1..];
    }
  }

  lemma {:induction false} TextTransitive(a: string, b: string, c: string)
    requires TextLeq(a, b) && TextLeq(b, c)
    ensures TextLeq(a, c)
    decreases |a|
  {
    if a != "" && a[0] == b[0] && b[0] == c[0] { TextTransitive(a[1..], b[1..], c[1..]); }
  }

  /** A sort key: three numbers, then two texts. */
  datatype Ranked = Ranked(x: int, y: int, z: int, s: string, t: string) {
    predicate Leq(o: Ranked) {
      if x != o.x then x < o.x else if y != o.y then y < o.y else if z != o.z then z < o.z
      else if s != o.s then TextLeq(s, o.s) else TextLeq(t, o.t)
    }
  }

  lemma RankedTotal(a: Ranked, b: Ranked)
    ensures a.Leq(b) || b.Leq(a)
  {
    TextTotal(a.s, b.s);
    TextTotal(a.t, b.t);
  }

  lemma RankedTransitive(a: Ranked, b: Ranked, c: Ranked)
    requires a.Leq(b) && b.Leq(c)
    ensures a.Leq(c)
  {
    if a.x == b.x == c.x && a.y == b.y == c.y && a.z == b.z == c.z {
      if a.s == b.s == c.s {
        TextTransitive(a.t, b.t, c.t);
      } else if a.s != b.s && b.s != c.s {
        TextTransitive(a.s, b.s, c.s);
        TextTotal(a.s, b.s);
      }
    }
  }

  // ---------------------------------------------------------------- the summary

  /** A group with its counts, and, for a cluster, its listed children. */
  datatype Entry = Entry(group: Group, counts: Counts, children: seq<Entry>)

  datatype Summary = Summary(counts: Counts, clusters: seq<Entry>)

  const CHILD_LIMIT: nat := 50

  ghost predicate IsCount(rows: seq<Row>, counts: Counts) {
    forall st :: counts.For(st) == TotalsOf(rows, st)
  }

  /** One entry per group of `rows`, each counting its members. */
  ghost predicate AreEntries(entries: seq<Entry>, rows: seq<Row>, level: Level) {
    && Covers(GroupsOf(entries), rows, level)
    && forall e <- entries :: Members(rows, level, e.group) != [] && IsCount(Members(rows, level, e.group), e.counts)
  }

  function GroupsOf(entries: seq<Entry>): seq<Group> { seq(|entries|, i requires 0 <= i < |entries| => entries[i].group) }

  function SumOfEntries(entries: seq<Entry>, st: Status): Totals {
    if entries == [] then Totals(0, 0, 0, 0, 0, 0)
    else Plus(SumOfEntries(entries[..|entries| - 1], st), entries[|entries| - 1].counts.For(st))
  }

  lemma {:induction false} EntriesSum(entries: seq<Entry>, rows: seq<Row>, level: Level, st: Status)
    requires forall e <- entries :: IsCount(Members(rows, level, e.group), e.counts)
    ensures SumOfEntries(entries, st) == SumByGroup(GroupsOf(entries), rows, level, st)
    decreases |entries|
  {
    if entries != [] {
      var n := |entries| - 1;
      assert entries[n] in entries;
      assert GroupsOf(entries)[..n] == GroupsOf(entries[..n]);
      EntriesSum(entries[..n], rows, level, st);
    }
  }

  /** Clusters partition the proposals and, before the cut, children partition their cluster: count, review,
      suspicious, safe, edited and every status add up. */
  lemma EntriesAddUp(entries: seq<Entry>, rows: seq<Row>, level: Level, st: Status)
    requires AreEntries(entries, rows, level)
    ensures SumOfEntries(entries, st) == TotalsOf(rows, st)
  {
    EntriesSum(entries, rows, level, st);
    GroupsSumToWhole(GroupsOf(entries), rows, level, st);
  }

  method CountGroups(rows: seq<Row>, level: Level) returns (entries: seq<Entry>, groups: map<Group, seq<Row>>)
    ensures AreEntries(entries, rows, level)
    ensures forall e <- entries :: e.group in groups && groups[e.group] == Members(rows, level, e.group)
  {
    var order;
    order, groups := GroupRows(rows, level);
    entries := [];
    for i := 0 to |order|
      invariant |entries| == i && forall j :: 0 <= j < i ==> entries[j].group == order[j]
      invariant forall e <- entries :: e.group in groups && IsCount(Members(rows, level, e.group), e.counts)
    {
      assert order[i] in order;
      var counts := CountRows(groups[order[i]]);
      entries := entries + [Entry(order[i], counts, [])];
    }
    assert GroupsOf(entries) == order;
  }
  /** Clusters by review, suspicious and total count, descending, then category and destination; children by
      count, descending, then domain. */
  function RankOf(e: Entry): Ranked {
    match e.group
    case ClusterGroup(k) => Ranked(0 - e.counts.review, 0 - e.counts.suspicious, 0 - e.counts.count, k.category, k.destination)
    case ChildGroup(k) => Ranked(0, 0, 0 - e.counts.count, k.domain, "")
  }

  ghost predicate Sorted(entries: seq<Entry>) {
    forall i, j :: 0 <= i < j < |entries| ==> RankOf(entries[i]).Leq(RankOf(entries[j]))
  }

  function Insert(item: Entry, entries: seq<Entry>): seq<Entry> {
    if entries == [] || RankOf(item).Leq(RankOf(entries[0])) then [item] + entries
    else [entries[0]] + Insert(item, entries[1..])
  }

  lemma {:induction false} InsertKeeps(item: Entry, entries: seq<Entry>)
    ensures multiset(Insert(item, entries)) == multiset(entries) + multiset{item}
    decreases |entries|
  {
    if entries != [] && !RankOf(item).Leq(RankOf(entries[0])) {
      InsertKeeps(item, entries[1..]);
      assert entries == [entries[0]] + entries[1..];
    }
  }

  lemma {:induction false} InsertKeepsGroups(item: Entry, entries: seq<Entry>)
    ensures multiset(GroupsOf(Insert(item, entries))) == multiset(GroupsOf(entries)) + multiset{item.group}
    decreases |entries|
  {
    if entries == [] || RankOf(item).Leq(RankOf(entries[0])) {
      assert GroupsOf([item] + entries) == [item.group] + GroupsOf(entries);
    } else {
      var rest := Insert(item, entries[1..]);
      InsertKeepsGroups(item, entries[1..]);
      assert GroupsOf(entries) == [entries[0].group] + GroupsOf(entries[1..]);
      assert GroupsOf([entries[0]] + rest) == [entries[0].group] + GroupsOf(rest);
    }
  }

  lemma {:induction false} InsertSorted(item: Entry, entries: seq<Entry>)
    requires Sorted(entries)
    ensures Sorted(Insert(item, entries))
    decreases |entries|
  {
    if entries == [] || RankOf(item).Leq(RankOf(entries[0])) {
      forall j | 0 <= j < |entries| ensures RankOf(item).Leq(RankOf(entries[j])) {
        if j > 0 { RankedTransitive(RankOf(item), RankOf(entries[0]), RankOf(entries[j])); }
      }
    } else {
      InsertSorted(item, entries[1..]);
      InsertKeeps(item, entries[1..]);
      RankedTotal(RankOf(item), RankOf(entries[0]));
      var rest := Insert(item, entries[1..]);
      forall e <- rest ensures RankOf(entries[0]).Leq(RankOf(e)) {
        assert e in multiset(rest);
        if e != item {
          var j :| 0 <= j < |entries[1..]| && entries[1..][j] == e;
          assert entries[j + 1] == e;
        }
      }
    }
  }

  method SortEntries(entries: seq<Entry>) returns (sorted: seq<Entry>)
    ensures Sorted(sorted) && multiset(sorted) == multiset(entries)
    ensures multiset(GroupsOf(sorted)) == multiset(GroupsOf(entries))
  {
    sorted := [];
    for i := 0 to |entries|
      invariant Sorted(sorted) && multiset(sorted) == multiset(entries[..i])
      invariant multiset(GroupsOf(sorted)) == multiset(GroupsOf(entries[..i]))
    {
      assert entries[..i + 1] == entries[..i] + [entries[i]];
      assert GroupsOf(entries[..i + 1]) == GroupsOf(entries[..i]) + [entries[i].group];
      InsertSorted(entries[i], sorted);
      InsertKeeps(entries[i], sorted);
      InsertKeepsGroups(entries[i], sorted);
      sorted := Insert(entries[i], sorted);
    }
    assert entries[..|entries|] == entries;
  }

  lemma {:induction false} DistinctOnce(groups: seq<Group>, g: Group)
    requires forall i, j :: 0 <= i < j < |groups| ==> groups[i] != groups[j]
    ensures multiset(groups)[g] <= 1
    decreases |groups|
  {
    if groups != [] {
      var n := |groups| - 1;
      DistinctOnce(groups[..n], g);
      assert groups == groups[..n] + [groups[n]];
      assert groups[n] !in groups[..n];
    }
  }

  lemma OnceDistinct(groups: seq<Group>, i: nat, j: nat)
    requires i < j < |groups| && multiset(groups)[groups[j]] <= 1
    ensures groups[i] != groups[j]
  {
    assert groups == groups[..j] + groups[j..];
    assert groups[i] == groups[..j][i] && groups[j] == groups[j..][0];
    assert multiset(groups)[groups[j]] == multiset(groups[..j])[groups[j]] + multiset(groups[j..])[groups[j]];
    assert groups[..j][i] in multiset(groups[..j]) && groups[j..][0] in multiset(groups[j..]);
  }

  lemma ReorderCovers(entries: seq<Entry>, sorted: seq<Entry>, rows: seq<Row>, level: Level)
    requires AreEntries(entries, rows, level)
    requires multiset(sorted) == multiset(entries) && multiset(GroupsOf(sorted)) == multiset(GroupsOf(entries))
    ensures AreEntries(sorted, rows, level)
  {
    var a, b := GroupsOf(entries), GroupsOf(sorted);
    forall i, j | 0 <= i < j < |b| ensures b[i] != b[j] {
      DistinctOnce(a, b[j]);
      OnceDistinct(b, i, j);
    }
    forall row <- rows ensures GroupOf(level, row) in b {
      assert GroupOf(level, row) in multiset(a);
    }
    forall e <- sorted ensures e in entries { assert e in multiset(sorted); }
  }

  /** The listed children of a cluster: its children in order, cut at the limit. */
  ghost predicate AreChildren(children: seq<Entry>, members: seq<Row>) {
    exists all :: AreEntries(all, members, ByChild) && Sorted(all)
      && children == if |all| <= CHILD_LIMIT then all else all[..CHILD_LIMIT]
  }

  /** No child left out by the cut has more proposals than a listed one. */
  lemma CutKeepsLargest(all: seq<Entry>, i: nat, j: nat)
    requires Sorted(all) && i < CHILD_LIMIT <= j < |all| && forall e <- all :: e.group.ChildGroup?
    ensures all[j].counts.count <= all[i].counts.count
  {
    assert RankOf(all[i]).Leq(RankOf(all[j]));
  }

  /** Every cluster has its own children. */
  ghost predicate ChildrenFit(clusters: seq<Entry>, rows: seq<Row>) {
    forall c <- clusters :: AreChildren(c.children, Members(rows, ByCluster, c.group))
  }

  ghost predicate IsSummary(rows: seq<Row>, s: Summary) {
    && IsCount(rows, s.counts)
    && AreEntries(s.clusters, rows, ByCluster) && Sorted(s.clusters)
    && ChildrenFit(s.clusters, rows)
  }

  /** The totals of the summary are the sums over its clusters. */
  lemma SummaryAddsUp(rows: seq<Row>, s: Summary, st: Status)
    requires IsSummary(rows, s)
    ensures SumOfEntries(s.clusters, st) == s.counts.For(st)
  {
    EntriesAddUp(s.clusters, rows, ByCluster, st);
  }

  method ListChildren(members: seq<Row>) returns (children: seq<Entry>)
    ensures AreChildren(children, members)
  {
    var entries, groups := CountGroups(members, ByChild);
    var all := SortEntries(entries);
    ReorderCovers(entries, all, members, ByChild);
    children := if |all| <= CHILD_LIMIT then all else all[..CHILD_LIMIT];
  }

  lemma OneMoreFits(clusters: seq<Entry>, c: Entry, rows: seq<Row>)
    requires ChildrenFit(clusters, rows) && AreChildren(c.children, Members(rows, ByCluster, c.group))
    ensures ChildrenFit(clusters + [c], rows)
  {
    forall d <- clusters + [c] ensures AreChildren(d.children, Members(rows, ByCluster, d.group)) {
      if d != c { assert d in clusters; }
    }
  }

  lemma ReorderFits(clusters: seq<Entry>, sorted: seq<Entry>, rows: seq<Row>)
    requires ChildrenFit(clusters, rows) && multiset(sorted) == multiset(clusters)
    ensures ChildrenFit(sorted, rows)
  {
    forall d <- sorted ensures AreChildren(d.children, Members(rows, ByCluster, d.group)) {
      assert d in multiset(sorted);
      assert d in clusters;
    }
  }

  method ListCluster(e: Entry, groups: map<Group, seq<Row>>, rows: seq<Row>) returns (c: Entry)
    requires e.group in groups && groups[e.group] == Members(rows, ByCluster, e.group)
    ensures c.group == e.group && c.counts == e.counts
    ensures AreChildren(c.children, Members(rows, ByCluster, c.group))
  {
    var children := ListChildren(groups[e.group]);
    c := Entry(e.group, e.counts, children);
  }

  /** The clusters with their children filled in. */
  method ListClusters(entries: seq<Entry>, groups: map<Group, seq<Row>>, rows: seq<Row>) returns (clusters: seq<Entry>)
    requires forall e <- entries :: e.group in groups && groups[e.group] == Members(rows, ByCluster, e.group)
    ensures |clusters| == |entries| && ChildrenFit(clusters, rows)
    ensures forall j :: 0 <= j < |clusters| ==> clusters[j].group == entries[j].group && clusters[j].counts == entries[j].counts
  {
    clusters := [];
    for i := 0 to |entries|
      invariant |clusters| == i && ChildrenFit(clusters, rows)
      invariant forall j :: 0 <= j < i ==> clusters[j].group == entries[j].group && clusters[j].counts == entries[j].counts
    {
      assert entries[i] in entries;
      var c := ListCluster(entries[i], groups, rows);
      OneMoreFits(clusters, c, rows);
      clusters := clusters + [c];
    }
  }

  method SummarizeRows(rows: seq<Row>) returns (s: Summary)
    ensures IsSummary(rows, s)
  {
    var counts := CountRows(rows);
    var entries, groups := CountGroups(rows, ByCluster);
    var clusters := ListClusters(entries, groups, rows);
    SameEntries(entries, clusters, rows, ByCluster);
    var sorted := SortEntries(clusters);
    ReorderCovers(clusters, sorted, rows, ByCluster);
    ReorderFits(clusters, sorted, rows);
    s := Summary(counts, sorted);
  }

  lemma SameEntries(entries: seq<Entry>, more: seq<Entry>, rows: seq<Row>, level: Level)
    requires AreEntries(entries, rows, level) && |more| == |entries|
    requires forall j :: 0 <= j < |more| ==> more[j].group == entries[j].group && more[j].counts == entries[j].counts
    ensures AreEntries(more, rows, level)
  {
    assert GroupsOf(more) == GroupsOf(entries);
    forall e <- more ensures Members(rows, level, e.group) != [] && IsCount(Members(rows, level, e.group), e.counts) {
      var j :| 0 <= j < |more| && more[j] == e;
      assert entries[j] in entries;
    }
  }

  method BuildReviewSummary(listed: seq<Listed>) returns (s: Summary)
    ensures IsSummary(RowsOf(listed), s)
  {
    var rows := [];
    for i := 0 to |listed|
      invariant rows == RowsOf(listed[..i])
    {
      assert listed[..i + 1][..i] == listed[..i];
      rows := rows + [RowOf(listed[i])];
    }
    assert listed[..|listed|] == listed;
    s := SummarizeRows(rows);
  }
}
