/**
  The intrusive circular list.  A list is a head node and the nodes that follow it
  along `next`; a node that is on no list has both links null.

  Each operation is stated on the sequence of nodes between the head and itself.
 */
module IntrusiveList {

  import opened Basics

  class Node {
    var next: Node?
    var prev: Node?

    constructor () ensures Unlinked(this) { next, prev := null, null; }
  }

  ghost predicate Unlinked(n: Node)
    reads n
  {
    n.next == null && n.prev == null
  }

  ghost function After(head: Node, s: seq<Node>, k: int): (n: Node)
    requires -1 <= k < |s|
  {
    if k + 1 < |s| then s[k + 1] else head
  }

  ghost function Before(head: Node, s: seq<Node>, k: int): (n: Node)
    requires 0 <= k <= |s|
  {
    if k > 0 then s[k - 1] else head
  }

  ghost predicate LinkedAt(head: Node, s: seq<Node>, k: nat)
    requires k < |s|
    reads s
  {
    s[k].next == After(head, s, k) && s[k].prev == Before(head, s, k)
  }

  /** `next` runs from the head through `s` and back to the head, `prev` the other way
      around, and no node occurs twice. */
  ghost predicate Ring(head: Node, s: seq<Node>)
    reads head, s
  {
    && head !in s && Distinct(s)
    && head.next == After(head, s, -1) && head.prev == Before(head, s, |s|)
    && forall k | 0 <= k < |s| :: LinkedAt(head, s, k)
  }

  ghost function Without(s: seq<Node>, k: nat): (r: seq<Node>)
    requires k < |s|
  {
    s[..k] + s[k + 1..]
  }

  // ---------------------------------------------------------------- operations

  method Init(list: Node)
    modifies list
    ensures Ring(list, [])
  {
    list.next := list;
    list.prev := list;
  }

  /** initng_list_add: a linked node is left alone; any other becomes the first. */
  method Add(newe: Node, head: Node, ghost s: seq<Node>)
    requires Ring(head, s) && newe != head && (Unlinked(newe) ==> newe !in s)
    modifies newe, head, s
    ensures old(Unlinked(newe)) ==> Ring(head, [newe] + s)
    ensures !old(Unlinked(newe)) ==>
              Ring(head, s) && newe.next == old(newe.next) && newe.prev == old(newe.prev)
  {
    if newe.next != null || newe.prev != null { return; }
    ghost var t := [newe] + s;
    if s != [] { assert LinkedAt(head, s, 0); }
    head.next.prev := newe;
    newe.next := head.next;
    newe.prev := head;
    head.next := newe;
    forall k | 0 <= k < |t| ensures LinkedAt(head, t, k) {
      if k > 0 { assert old(LinkedAt(head, s, k - 1)); }
    }
  }

  /** initng_list_del: an entry that is on no list (`k` is -1) is left alone; any other
      is taken out, and is on no list afterwards. */
  method Del(entry: Node, ghost head: Node, ghost s: seq<Node>, ghost k: int)
    requires Ring(head, s) && entry != head
    requires if k == -1 then Unlinked(entry) else 0 <= k < |s| && s[k] == entry
    modifies entry, head, s
    ensures Unlinked(entry)
    ensures Ring(head, if k == -1 then s else Without(s, k))
  {
    if k != -1 { assert LinkedAt(head, s, k); }
    if entry.next != null || entry.prev != null {
      entry.next.prev := entry.prev;
      entry.prev.next := entry.next;
      entry.next := null;
      entry.prev := null;
      ghost var t := Without(s, k);
      forall j | 0 <= j < |t| ensures LinkedAt(head, t, j) {
        assert old(LinkedAt(head, s, if j < k then j else j + 1));
      }
    }
  }

  /** initng_list_move from one list to the front of another. */
  method Move(entry: Node, ghost from: Node, ghost a: seq<Node>, ghost k: nat, head: Node, ghost b: seq<Node>)
    requires Ring(from, a) && k < |a| && a[k] == entry && Ring(head, b)
    requires Apart(from, a, head, b)
    modifies from, a, head, b
    ensures Ring(from, Without(a, k)) && Ring(head, [entry] + b)
  {
    ghost var rest := Without(a, k);
    assert forall i | 0 <= i < |rest| :: rest[i] != entry && rest[i] !in b;
    Del(entry, from, a, k);
    forall j | 0 <= j < |b| ensures LinkedAt(head, b, j) { assert old(LinkedAt(head, b, j)); }
    label Deleted:
    Add(entry, head, b);
    forall j | 0 <= j < |rest| ensures LinkedAt(from, rest, j) { assert old@Deleted(LinkedAt(from, rest, j)); }
  }

  /** initng_list_move within one list: the entry becomes the first. */
  method MoveToFront(entry: Node, head: Node, ghost s: seq<Node>, ghost k: nat)
    requires Ring(head, s) && k < |s| && s[k] == entry
    modifies head, s
    ensures Ring(head, [entry] + Without(s, k))
  {
    Del(entry, head, s, k);
    Add(entry, head, Without(s, k));
  }

  /** Two lists with no node in common. */
  ghost predicate Apart(h1: Node, a: seq<Node>, h2: Node, b: seq<Node>) {
    h1 != h2 && h1 !in b && h2 !in a && forall i | 0 <= i < |a| :: a[i] !in b
  }

  /** initng_list_join: the nodes of one list go in front of the other's, in order. */
  method Join(list: Node, ghost a: seq<Node>, head: Node, ghost b: seq<Node>)
    requires Ring(list, a) && Ring(head, b) && Apart(list, a, head, b)
    modifies list, a, head, b
    ensures Ring(list, []) && Ring(head, a + b)
  {
    if list.next == list {
      assert a == [] && a + b == b;
      return;
    }
    assert LinkedAt(list, a, 0) && LinkedAt(list, a, |a| - 1);
    if b != [] { assert LinkedAt(head, b, 0); }
    var first, last, at := list.next, list.prev, head.next;
    first.prev := head;
    head.next := first;
    last.next := at;
    at.prev := last;
    Init(list);
    ghost var t := a + b;
    forall i, j | 0 <= i < j < |t| ensures t[i] != t[j] {
      if i < |a| <= j { assert t[i] == a[i] && t[j] == b[j - |a|]; }
    }
    forall k | 0 <= k < |t| ensures LinkedAt(head, t, k) {
      if k < |a| { assert old(LinkedAt(list, a, k)); } else { assert old(LinkedAt(head, b, k - |a|)); }
    }
  }

  // ------------------------------------------------------- one list for a node

  /** Two rings that share a node, neither head being an entry of the other ring, are
      the same ring: a node is on at most one list, at one place. */
  lemma SharedNodeSameRing(h1: Node, s1: seq<Node>, i: nat, h2: Node, s2: seq<Node>, j: nat)
    requires Ring(h1, s1) && Ring(h2, s2) && h1 !in s2 && h2 !in s1
    requires i < |s1| && j < |s2| && s1[i] == s2[j]
    ensures h1 == h2 && s1 == s2 && i == j
  {
    SameAfter(h1, s1, i, h2, s2, j);
    SameBefore(h1, s1, i, h2, s2, j);
    assert s1 == s1[..i] + s1[i..] && s2 == s2[..j] + s2[j..];
  }

  lemma {:induction false} SameAfter(h1: Node, s1: seq<Node>, i: nat, h2: Node, s2: seq<Node>, j: nat)
    requires Ring(h1, s1) && Ring(h2, s2) && h1 !in s2 && h2 !in s1
    requires i < |s1| && j < |s2| && s1[i] == s2[j]
    ensures h1 == h2 && s1[i..] == s2[j..]
    decreases |s1| - i
  {
    assert LinkedAt(h1, s1, i) && LinkedAt(h2, s2, j);
    if i + 1 < |s1| && j + 1 < |s2| {
      SameAfter(h1, s1, i + 1, h2, s2, j + 1);
      assert s1[i..] == [s1[i]] + s1[i + 1..] && s2[j..] == [s2[j]] + s2[j + 1..];
    } else {
      assert After(h1, s1, i) == After(h2, s2, j);
    }
  }

  lemma {:induction false} SameBefore(h1: Node, s1: seq<Node>, i: nat, h2: Node, s2: seq<Node>, j: nat)
    requires Ring(h1, s1) && Ring(h2, s2) && h1 !in s2 && h2 !in s1
    requires i < |s1| && j < |s2| && s1[i] == s2[j]
    ensures i == j && s1[..i] == s2[..j]
    decreases i
  {
    assert LinkedAt(h1, s1, i) && LinkedAt(h2, s2, j);
    assert Before(h1, s1, i) == Before(h2, s2, j);
    if i > 0 && j > 0 {
      SameBefore(h1, s1, i - 1, h2, s2, j - 1);
      assert s1[..i] == s1[..i - 1] + [s1[i - 1]] && s2[..j] == s2[..j - 1] + [s2[j - 1]];
    }
  }

  // --------------------------------------------------------- the safe reverse walk

  ghost function Reversed(s: seq<Node>): (r: seq<Node>)
    ensures |r| == |s|
    ensures forall i | 0 <= i < |s| :: r[i] == s[|s| - 1 - i]
  {
    seq(|s|, i requires 0 <= i < |s| => s[|s| - 1 - i])
  }

  ghost function Kept(s: seq<Node>, doomed: set<Node>): (r: seq<Node>)
  {
    if s == [] then []
    else if s[0] in doomed then Kept(s[1..], doomed) else [s[0]] + Kept(s[1..], doomed)
  }

  lemma {:induction false} KeptMember(s: seq<Node>, doomed: set<Node>)
    ensures forall i | 0 <= i < |Kept(s, doomed)| :: Kept(s, doomed)[i] in s && Kept(s, doomed)[i] !in doomed
  {
    if s != [] {
      KeptMember(s[1..], doomed);
      var rest := Kept(s[1..], doomed);
      forall i | 0 <= i < |Kept(s, doomed)| ensures Kept(s, doomed)[i] in s && Kept(s, doomed)[i] !in doomed {
        if s[0] in doomed { assert Kept(s, doomed)[i] == rest[i]; }
        else if i > 0 { assert Kept(s, doomed)[i] == rest[i - 1]; }
      }
    }
  }

  /** The list when the walk has `m` nodes still to come. */
  ghost function Now(s: seq<Node>, m: nat, doomed: set<Node>): (r: seq<Node>)
    requires m <= |s|
  {
    s[..m] + Kept(s[m..], doomed)
  }

  lemma NowMember(s: seq<Node>, m: nat, doomed: set<Node>)
    requires m <= |s|
    ensures forall i | 0 <= i < |Now(s, m, doomed)| :: Now(s, m, doomed)[i] in s
  {
    KeptMember(s[m..], doomed);
    var kept := Kept(s[m..], doomed);
    assert forall i | m <= i < m + |kept| :: (s[..m] + kept)[i] == kept[i - m];
  }

  lemma NowStep(s: seq<Node>, m: nat, doomed: set<Node>)
    requires 0 < m <= |s|
    ensures Now(s, m - 1, doomed) ==
            if s[m - 1] in doomed then Without(Now(s, m, doomed), m - 1) else Now(s, m, doomed)
  {
    assert s[m - 1..] == [s[m - 1]] + s[m..];
    assert s[..m] == s[..m - 1] + [s[m - 1]];
    var tail := Kept(s[m..], doomed);
    assert Without(s[..m] + tail, m - 1) == s[..m - 1] + tail;
    assert s[..m] + tail == s[..m - 1] + ([s[m - 1]] + tail);
  }

  lemma NowDone(s: seq<Node>, m: nat, doomed: set<Node>, i: nat)
    requires Distinct(s) && m <= i < |s| && s[i] in doomed
    ensures s[i] !in Now(s, m, doomed)
  {
    KeptMember(s[m..], doomed);
  }

  /** What the walk keeps. */
  ghost predicate Walking(head: Node, s: seq<Node>, m: nat, doomed: set<Node>)
    requires m <= |s|
    reads head, s, Now(s, m, doomed)
  {
    && Ring(head, Now(s, m, doomed)) && head.prev != null
    && forall i | m <= i < |s| && s[i] in doomed :: Unlinked(s[i])
  }

  /** The body of the walk at node `s[m - 1]`. */
  method VisitOne(pos: Node, head: Node, doomed: set<Node>, ghost s: seq<Node>, ghost m: nat)
    requires head !in s && Distinct(s) && 0 < m <= |s| && pos == s[m - 1] && Walking(head, s, m, doomed)
    modifies head, s
    ensures Walking(head, s, m - 1, doomed)
  {
    NowStep(s, m, doomed);
    NowMember(s, m, doomed);
    if pos in doomed {
      ghost var now := Now(s, m, doomed);
      forall i | m <= i < |s| && s[i] in doomed ensures s[i] !in now { NowDone(s, m, doomed, i); }
      Del(pos, head, now, m - 1);
    }
  }

  /** The link the walk follows next, in the list as it is after the body. */
  lemma NextToVisit(head: Node, s: seq<Node>, m: nat, doomed: set<Node>)
    requires 0 < m <= |s| && Walking(head, s, m, doomed)
    ensures s[m - 1].prev == Before(head, s, m - 1)
  {
    assert LinkedAt(head, Now(s, m, doomed), m - 1);
  }

  lemma WalkStarts(head: Node, s: seq<Node>, doomed: set<Node>)
    requires Ring(head, s)
    ensures Walking(head, s, |s|, doomed) && head.prev == Before(head, s, |s|)
  {
    assert Now(s, |s|, doomed) == s;
  }

  lemma WalkEnds(head: Node, s: seq<Node>, doomed: set<Node>)
    requires Walking(head, s, 0, doomed)
    ensures Ring(head, Kept(s, doomed)) && forall x | x in s && x in doomed :: Unlinked(x)
  {
    assert s[0..] == s;
    assert Now(s, 0, doomed) == Kept(s, doomed);
  }

  /** The loop of initng_list_foreach_rev_safe. */
  method WalkAll(head: Node, doomed: set<Node>, ghost s: seq<Node>) returns (visited: seq<Node>)
    requires head !in s && Distinct(s) && Walking(head, s, |s|, doomed) && head.prev == Before(head, s, |s|)
    modifies head, s
    ensures visited == Reversed(s)
    ensures Walking(head, s, 0, doomed)
  {
    visited := [];
    ghost var m := |s|;
    if m > 0 { NextToVisit(head, s, m, doomed); }
    var pos := head.prev;
    var n := pos.prev;
    while pos != head
      invariant 0 <= m <= |s| && Walking(head, s, m, doomed)
      invariant pos == Before(head, s, m) && n != null && (m > 0 ==> n == Before(head, s, m - 1))
      invariant visited == Reversed(s)[..|s| - m]
      decreases m
    {
      visited := visited + [pos];
      VisitOne(pos, head, doomed, s, m);
      m := m - 1;
      if m > 0 { NextToVisit(head, s, m, doomed); }
      pos := n;
      n := n.prev;
    }
  }

  /** initng_list_foreach_rev_safe with a body that deletes the current node or leaves
      it: it visits every node that was on the list once, oldest first, and leaves
      the nodes that were not deleted, in their order. */
  method WalkOldestFirst(head: Node, doomed: set<Node>, ghost s: seq<Node>) returns (visited: seq<Node>)
    requires Ring(head, s)
    modifies head, s
    ensures visited == Reversed(s)
    ensures Ring(head, Kept(s, doomed))
    ensures forall x | x in s && x in doomed :: Unlinked(x)
  {
    WalkStarts(head, s, doomed);
    visited := WalkAll(head, doomed, s);
    WalkEnds(head, s, doomed);
  }

  // -------------------------------------------------- what adding at the tail does

  /** initng_list_add_tail as it is written: the link back from the new entry is read
      after the head has been pointed at it. */
  method AddTail(newe: Node, head: Node, ghost s: seq<Node>)
    requires Ring(head, s) && newe != head && (Unlinked(newe) ==> newe !in s)
    modifies newe, head, s
    ensures old(Unlinked(newe)) ==> newe.prev == newe && newe.next == head && Before(head, s, |s|).next == newe
    ensures !old(Unlinked(newe)) ==>
              Ring(head, s) && newe.next == old(newe.next) && newe.prev == old(newe.prev)
  {
    if newe.next != null || newe.prev != null { return; }
    head.prev.next := newe;
    head.prev := newe;
    newe.next := head;
    newe.prev := head.prev;
  }

  /** No entry of a ring is its own predecessor; so adding an unlinked node at the
      tail never gives a list with that node on it. */
  lemma NoEntryPrecedesItself(head: Node, s: seq<Node>, n: Node)
    requires Ring(head, s) && n in s
    ensures n.prev != n
  {
    var k :| 0 <= k < |s| && s[k] == n;
    assert LinkedAt(head, s, k);
  }
}
