/** The bounded-window scan of mailbox history. */
module HistoricalFetch {

  /** UIDs present, and the next UID the server will assign (section 2.3.1.1 of RFC 3501). */
  datatype Mailbox = Mailbox(uids: set<nat>, uidNext: nat) {
    ghost predicate Valid() {
      1 <= uidNext && forall u <- uids :: 1 <= u < uidNext
    }

    function Highest(): nat
      requires 1 <= uidNext
    {
      uidNext - 1
    }
  }

  ghost predicate Ascending(s: seq<nat>) {
    forall i, j :: 0 <= i < j < |s| ==> s[i] < s[j]
  }

  /** `messages` are the first `maxCount` UIDs after `after`, and `scan` is the highest position inspected. */
  ghost predicate IsBatch(mailbox: Mailbox, after: nat, maxCount: nat, messages: seq<nat>, scan: nat) {
    && Ascending(messages) && |messages| <= maxCount && after <= scan
    && (forall u :: u in messages <==> u in mailbox.uids && after < u <= scan)
    && (if |messages| == maxCount && maxCount > 0 then scan == messages[maxCount - 1]
        else scan == if mailbox.uidNext <= after + 1 then after else mailbox.uidNext - 1)
  }

  /** The result is determined by the mailbox: the window size is not observable. */
  lemma BatchUnique(mailbox: Mailbox, after: nat, maxCount: nat, m1: seq<nat>, s1: nat, m2: seq<nat>, s2: nat)
    requires mailbox.Valid() && maxCount > 0
    requires IsBatch(mailbox, after, maxCount, m1, s1) && IsBatch(mailbox, after, maxCount, m2, s2)
    ensures m1 == m2 && s1 == s2
  {
    if s1 == s2 {
      AscendingUnique(m1, m2);
    } else if s1 < s2 {
      EarlierStop(mailbox, after, maxCount, m1, s1, m2, s2);
    } else {
      EarlierStop(mailbox, after, maxCount, m2, s2, m1, s1);
    }
  }

  lemma EarlierStop(mailbox: Mailbox, after: nat, maxCount: nat, m1: seq<nat>, s1: nat, m2: seq<nat>, s2: nat)
    requires mailbox.Valid() && maxCount > 0
    requires IsBatch(mailbox, after, maxCount, m1, s1) && IsBatch(mailbox, after, maxCount, m2, s2)
    ensures s1 >= s2
  {
    if |m2| == maxCount { assert m2[maxCount - 1] in mailbox.uids; }
    if s1 < s2 {
      SubsequenceShorter(m1, m2, s1);
    }
  }

  lemma {:induction false} AscendingUnique(a: seq<nat>, b: seq<nat>)
    requires Ascending(a) && Ascending(b) && forall u :: u in a <==> u in b
    ensures a == b
  {
    if b != [] { assert b[0] in a; }
    if a == [] {
    } else {
      assert a[0] in b && b != [];
      assert b[0] in a;
      assert a[0] == b[0];
      forall u ensures u in a[1..] <==> u in b[1..] {
        assert u in a <==> u == a[0] || u in a[1..];
        assert u in b <==> u == b[0] || u in b[1..];
      }
      AscendingUnique(a[1..], b[1..]);
    }
  }

  lemma {:induction false} AscendingIsShort(s: seq<nat>, all: set<nat>)
    requires Ascending(s) && forall u <- s :: u in all
    ensures |s| <= |all|
  {
    if s != [] {
      assert s[0] in s;
      forall u | u in s[1..] ensures u in all - {s[0]} {
        var i :| 0 <= i < |s| - 1 && s[1..][i] == u;
        assert s[i + 1] in s;
      }
      AscendingIsShort(s[1..], all - {s[0]});
    }
  }

  /** A batch that stops earlier holds fewer messages, unless nothing lies between. */
  lemma SubsequenceShorter(short: seq<nat>, long: seq<nat>, cut: nat)
    requires Ascending(short) && Ascending(long)
    requires forall u :: u in short <==> u in long && u <= cut
    ensures |short| <= |long| && (forall i :: 0 <= i < |short| ==> short[i] == long[i])
    ensures |short| == |long| ==> short == long
  {
    if short != [] { assert short[0] in long; }
    if long == [] {
    } else if short != [] {
      assert short[0] in long && long[0] <= short[0];
      assert long[0] in short;
      assert short[0] == long[0];
      forall u ensures u in short[1..] <==> u in long[1..] && u <= cut {
        assert u in short <==> u == short[0] || u in short[1..];
        assert u in long <==> u == long[0] || u in long[1..];
      }
      SubsequenceShorter(short[1..], long[1..], cut);
    }
  }

  /** The batch, as a function of what the mailbox holds. */
  ghost function TheBatch(mailbox: Mailbox, after: nat, maxCount: nat): (seq<nat>, nat) {
    if exists messages: seq<nat>, scan: nat :: IsBatch(mailbox, after, maxCount, messages, scan) then
      var messages: seq<nat>, scan: nat :| IsBatch(mailbox, after, maxCount, messages, scan);
      (messages, scan)
    else ([], after)
  }

  lemma BatchIs(mailbox: Mailbox, after: nat, maxCount: nat, messages: seq<nat>, scan: nat)
    requires mailbox.Valid() && maxCount > 0 && IsBatch(mailbox, after, maxCount, messages, scan)
    ensures TheBatch(mailbox, after, maxCount) == (messages, scan)
  {
    var (m, s) := TheBatch(mailbox, after, maxCount);
    BatchUnique(mailbox, after, maxCount, messages, scan, m, s);
  }

  /** The server's answer to a UID range search, ascending. */
  method Search(mailbox: Mailbox, start: nat, end: nat) returns (found: seq<nat>)
    requires mailbox.Valid()
    ensures Ascending(found)
    ensures forall u :: u in found <==> u in mailbox.uids && start <= u <= end
  {
    found := [];
    var u := start;
    while u <= end
      invariant start <= u
      invariant Ascending(found) && forall i :: 0 <= i < |found| ==> found[i] < u
      invariant forall x :: x in found <==> x in mailbox.uids && start <= x <= end && x < u
      decreases end + 1 - u
    {
      if u in mailbox.uids { found := found + [u]; }
      u := u + 1;
    }
  }

  method FetchHistoricalBatch(mailbox: Mailbox, after: nat, maxCount: nat, uidWindow: nat)
    returns (messages: seq<nat>, scan: nat, done: bool)
    requires mailbox.Valid() && maxCount > 0 && uidWindow > 0
    ensures IsBatch(mailbox, after, maxCount, messages, scan)
    ensures done == (scan >= mailbox.Highest())
  {
    var highest := mailbox.Highest();
    var cursor := after;
    var selected: seq<nat> := [];
    while cursor < highest && |selected| < maxCount
      invariant after <= cursor && (cursor <= highest || cursor == after)
      invariant Ascending(selected) && |selected| <= maxCount
      invariant forall u :: u in selected <==> u in mailbox.uids && after < u <= cursor
      invariant |selected| == maxCount ==> cursor == selected[maxCount - 1]
      decreases highest - cursor, maxCount - |selected|
    {
      var start := cursor + 1;
      var end := if start + uidWindow - 1 < highest then start + uidWindow - 1 else highest;
      var candidates := Search(mailbox, start, end);
      var room := maxCount - |selected|;
      var taken := if |candidates| < room then candidates else candidates[..room];
      assert taken == candidates[..|taken|];
      TakeKeepsOrder(selected, candidates, |taken|, cursor);
      assert |taken| > 0 ==> taken[|taken| - 1] in candidates;
      selected := selected + taken;
      if |selected| >= maxCount {
        cursor := selected[|selected| - 1];
      } else {
        cursor := end;
      }
    }
    messages, scan, done := selected, cursor, cursor >= highest;
  }

  lemma TakeKeepsOrder(selected: seq<nat>, candidates: seq<nat>, n: nat, cursor: nat)
    requires Ascending(selected) && Ascending(candidates) && n <= |candidates|
    requires (forall u <- selected :: u <= cursor) && (forall u <- candidates :: cursor < u)
    ensures Ascending(selected + candidates[..n])
    ensures forall u :: u in selected + candidates[..n] <==> u in selected || u in candidates[..n]
    ensures n > 0 ==> forall u :: u in candidates[..n] <==> u in candidates && u <= candidates[n - 1]
  {
    assert forall i :: 0 <= i < |selected| ==> selected[i] in selected;
    assert forall i :: 0 <= i < n ==> candidates[i] in candidates;
    if n > 0 {
      forall u ensures u in candidates[..n] <==> u in candidates && u <= candidates[n - 1] {
        if u in candidates && u <= candidates[n - 1] {
          var i :| 0 <= i < |candidates| && candidates[i] == u;
          assert i < n;
          assert candidates[..n][i] == u;
        }
      }
    }
  }
}
