/**
  Pending signals: the handler records a signal in the first free slot unless it is
  there already, and the main loop clears and dispatches the slots in order.  A
  signal can arrive between any two steps of the dispatch; it is recorded here in one
  piece.  SignalNesting lets recorders interrupt each other, and shows when that is
  the same.

  Clearing a slot and reading it are one step here: no recorder stores into a slot
  that was taken when it began, so the signal read is the signal cleared.
 */
module Signals {

  const FREE := -1
  const SIGNAL_STACK := 10

  // ------------------------------------------------------------------ recording

  /** The first slot from `i` on that is free or already holds the signal. */
  function Spot(slots: seq<int>, sig: int, i: nat): (r: nat)
    requires i <= |slots|
    ensures i <= r <= |slots|
    ensures forall k | i <= k < r :: slots[k] != sig && slots[k] != FREE
    ensures r < |slots| ==> slots[r] == sig || slots[r] == FREE
    decreases |slots| - i
  {
    if i == |slots| || slots[i] == sig || slots[i] == FREE then i else Spot(slots, sig, i + 1)
  }

  /** All slots are taken by other signals: this one is lost. */
  predicate Full(slots: seq<int>, sig: int) {
    Spot(slots, sig, 0) == |slots|
  }

  function Record(slots: seq<int>, sig: int): (r: seq<int>)
    ensures |r| == |slots|
    ensures Full(slots, sig) ==> r == slots
    ensures !Full(slots, sig) ==> sig in r
  {
    var j := Spot(slots, sig, 0);
    if j == |slots| then slots
    else
      var r := slots[j := sig];
      assert r[j] == sig;
      r
  }

  // ------------------------------------------------------------------------ runs

  /** The slots, the index the dispatch loop is at, and what it has dispatched. */
  datatype State = State(slots: seq<int>, i: nat, out: seq<int>)

  datatype Event = Arrive(sig: int) | Visit

  predicate Ok(st: State) {
    st.i < |st.slots|
  }

  function Step(st: State, e: Event): (r: State)
    requires Ok(st)
    ensures Ok(r) && |r.slots| == |st.slots|
  {
    match e
    case Arrive(sig) => st.(slots := Record(st.slots, sig))
    case Visit =>
      var sig := st.slots[st.i];
      State(
        st.slots[st.i := FREE],
        if st.i + 1 == |st.slots| then 0 else st.i + 1,
        if sig == FREE then st.out else st.out + [sig])
  }

  function Run(st: State, es: seq<Event>): (r: State)
    requires Ok(st)
    ensures Ok(r) && |r.slots| == |st.slots|
  {
    if es == [] then st else Step(Run(st, es[..|es| - 1]), es[|es| - 1])
  }

  function Empty(n: nat): (st: State)
    requires n > 0
    ensures Ok(st)
  {
    State(seq(n, _ => FREE), 0, [])
  }

  // ------------------------------------------------------------------- the layout

  /** New signals fill `[0..p)`, then a gap up to the loop index, then what is left
      of the old ones in `[i..q)`, free after that; the new ones have no duplicates
      among them, nor have the old ones. */
  predicate Split(st: State, p: nat, q: nat) {
    && Ok(st) && p <= st.i <= q <= |st.slots|
    && (forall k | 0 <= k < |st.slots| ::
          st.slots[k] != FREE <==> k < p || st.i <= k < q)
    && (forall j, k | 0 <= j < k < p :: st.slots[j] != st.slots[k])
    && (forall j, k | st.i <= j < k < q :: st.slots[j] != st.slots[k])
  }

  lemma StepKeepsSplit(st: State, e: Event, p: nat, q: nat) returns (p': nat, q': nat)
    requires Split(st, p, q) && (e.Arrive? ==> e.sig != FREE)
    ensures Split(Step(st, e), p', q')
  {
    p', q' := p, q;
    match e
    case Arrive(sig) =>
      var j := Spot(st.slots, sig, 0);
      if j < |st.slots| && st.slots[j] == FREE {
        if p < st.i {
          assert j == p by { assert st.slots[p] == FREE; }
          p' := p + 1;
        } else {
          assert j == q by { assert st.slots[q] == FREE; }
          q' := q + 1;
        }
      }
    case Visit =>
      if st.i + 1 == |st.slots| { p', q' := 0, p; }
      else if st.i == q { q' := q + 1; }
  }

  predicate Within(es: seq<Event>, kinds: set<int>) {
    forall k | 0 <= k < |es| :: es[k].Arrive? ==> es[k].sig in kinds
  }

  predicate Holds(st: State, kinds: set<int>) {
    forall k | 0 <= k < |st.slots| :: st.slots[k] == FREE || st.slots[k] in kinds
  }

  lemma StepHolds(st: State, e: Event, kinds: set<int>)
    requires Ok(st) && Holds(st, kinds) && (e.Arrive? ==> e.sig in kinds)
    ensures Holds(Step(st, e), kinds)
  {
  }

  /** After every interleaving of arrivals and dispatch steps the slots split. */
  lemma {:induction false} RunIsSplit(n: nat, es: seq<Event>, kinds: set<int>) returns (p: nat, q: nat)
    requires n > 0 && FREE !in kinds && Within(es, kinds)
    ensures Split(Run(Empty(n), es), p, q) && Holds(Run(Empty(n), es), kinds)
    decreases |es|
  {
    if es == [] {
      p, q := 0, 0;
    } else {
      var m := |es| - 1;
      var p0, q0 := RunIsSplit(n, es[..m], kinds);
      var st := Run(Empty(n), es[..m]);
      StepHolds(st, es[m], kinds);
      p, q := StepKeepsSplit(st, es[m], p0, q0);
    }
  }

  // ----------------------------------------------------------- nothing gets lost

  lemma {:induction false} DistinctFits(s: seq<int>, kinds: set<int>)
    requires (forall i, j | 0 <= i < j < |s| :: s[i] != s[j]) && forall i | 0 <= i < |s| :: s[i] in kinds
    ensures |s| <= |kinds|
    decreases |s|
  {
    if s != [] {
      var m := |s| - 1;
      forall i | 0 <= i < m ensures s[..m][i] in kinds - {s[m]} { assert s[..m][i] == s[i]; }
      DistinctFits(s[..m], kinds - {s[m]});
    }
  }

  /** A full table holds at most each other kind twice. */
  lemma FullNeedsKinds(st: State, p: nat, q: nat, sig: int, kinds: set<int>)
    requires Split(st, p, q) && Holds(st, kinds) && sig in kinds && sig != FREE && Full(st.slots, sig)
    ensures |st.slots| <= 2 * |kinds| - 2
    ensures st.i == 0 ==> |st.slots| <= |kinds| - 1
  {
    var n := |st.slots|;
    assert forall k | 0 <= k < n :: st.slots[k] != FREE && st.slots[k] in kinds - {sig};
    var k := if q < n then q else if p < st.i then p else 0;
    assert st.slots[k] != FREE;
    assert p == st.i && q == n;
    var a, b := st.slots[..p], st.slots[p..];
    forall j, k | 0 <= j < k < |b| ensures b[j] != b[k] {
      assert b[j] == st.slots[p + j] && b[k] == st.slots[p + k];
    }
    DistinctFits(a, kinds - {sig});
    DistinctFits(b, kinds - {sig});
  }

  /** Under every interleaving, 2K - 1 slots are enough for K kinds of signal. */
  lemma EnoughSlotsLoseNothing(n: nat, es: seq<Event>, kinds: set<int>, sig: int)
    requires n > 0 && FREE !in kinds && Within(es, kinds) && sig in kinds
    requires n >= 2 * |kinds| - 1
    ensures !Full(Run(Empty(n), es).slots, sig)
  {
    var p, q := RunIsSplit(n, es, kinds);
    if Full(Run(Empty(n), es).slots, sig) {
      FullNeedsKinds(Run(Empty(n), es), p, q, sig, kinds);
    }
  }

  /** Between passes, K slots are enough: the arrival finds no old signals. */
  lemma BetweenPassesLoseNothing(n: nat, es: seq<Event>, kinds: set<int>, sig: int)
    requires n > 0 && FREE !in kinds && Within(es, kinds) && sig in kinds
    requires n >= |kinds| && Run(Empty(n), es).i == 0
    ensures !Full(Run(Empty(n), es).slots, sig)
  {
    var p, q := RunIsSplit(n, es, kinds);
    if Full(Run(Empty(n), es).slots, sig) {
      FullNeedsKinds(Run(Empty(n), es), p, q, sig, kinds);
    }
  }

  // ------------------------------------------------------- six kinds and ten slots

  /** `es` leads from the empty table of ten slots to `slots`, the loop being at `i`. */
  predicate Reached(es: seq<Event>, slots: seq<int>, i: nat) {
    Run(Empty(SIGNAL_STACK), es).slots == slots && Run(Empty(SIGNAL_STACK), es).i == i
  }

  lemma RunSnoc(st: State, es: seq<Event>, e: Event)
    requires Ok(st)
    ensures Run(st, es + [e]) == Step(Run(st, es), e)
  {
    assert (es + [e])[..|es + [e]| - 1] == es;
  }

  lemma ArriveAt(es: seq<Event>, slots: seq<int>, i: nat, sig: int, j: nat)
    requires Reached(es, slots, i) && j < |slots| && slots[j] == FREE && sig != FREE
    requires forall k | 0 <= k < j :: slots[k] != sig && slots[k] != FREE
    ensures Reached(es + [Arrive(sig)], slots[j := sig], i)
  {
    RunSnoc(Empty(SIGNAL_STACK), es, Arrive(sig));
    assert Spot(slots, sig, 0) == j;
  }

  lemma VisitAt(es: seq<Event>, slots: seq<int>, i: nat)
    requires Reached(es, slots, i) && i + 1 < |slots|
    ensures Reached(es + [Visit], slots[i := FREE], i + 1)
  {
    RunSnoc(Empty(SIGNAL_STACK), es, Visit);
  }

  /** Dispatch slot `i`; `x` takes its place, and `y` goes behind all the others. */
  lemma Round(es: seq<Event>, slots: seq<int>, i: nat, x: int, y: int) returns (r: seq<Event>)
    requires Reached(es, slots, i) && |slots| == 10 && i < 4
    requires x != FREE && y != FREE && x != y && slots[6 + i] == FREE
    requires forall k | 0 <= k < 6 + i && k != i :: slots[k] != FREE && slots[k] != y && (k < i ==> slots[k] != x)
    ensures Reached(r, slots[i := x][6 + i := y], i + 1)
    ensures r == es + [Visit] + [Arrive(x)] + [Arrive(y)]
  {
    VisitAt(es, slots, i);
    ArriveAt(es + [Visit], slots[i := FREE], i + 1, x, i);
    assert slots[i := FREE][i := x] == slots[i := x];
    ArriveAt(es + [Visit] + [Arrive(x)], slots[i := x], i + 1, y, 6 + i);
    r := es + [Visit] + [Arrive(x)] + [Arrive(y)];
  }

  predicate SixKinds(k: seq<int>) {
    && |k| == 6
    && (forall i | 0 <= i < 6 :: k[i] != FREE)
    && (forall i, j | 0 <= i < j < 6 :: k[i] != k[j])
  }

  /** The table after `i` rounds: the kinds in order, but in the slots visited so far
      each replaced by the one before it, and those dispatched recorded again behind. */
  function Table(k: seq<int>, i: nat): (slots: seq<int>)
    requires |k| == 6 && i <= 4
  {
    seq(10, j requires 0 <= j < 10 =>
      if j < i then Previous(k, j) else if j < 6 then k[j] else if j < 6 + i then k[j - 6] else FREE)
  }

  function Previous(k: seq<int>, j: nat): (sig: int)
    requires |k| == 6 && j < 6
  {
    if j == 0 then k[5] else k[j - 1]
  }

  lemma FillSix(k: seq<int>)
    requires SixKinds(k)
    ensures Reached(ArriveAll(k), Table(k, 0), 0)
  {
    var i := 0;
    assert k[..0] + Frees(10) == Empty(SIGNAL_STACK).slots;
    while i < 6
      invariant 0 <= i <= 6
      invariant Reached(ArriveAll(k[..i]), k[..i] + Frees(10 - i), 0)
    {
      Append(ArriveAll(k[..i]), k[..i], i, k[i]);
      assert k[..i + 1] == k[..i] + [k[i]];
      assert ArriveAll(k[..i + 1]) == ArriveAll(k[..i]) + [Arrive(k[i])];
      i := i + 1;
    }
    assert k[..6] == k && k + Frees(4) == Table(k, 0);
  }

  /** The first free slot is `j` and the signal is new. */
  lemma Append(es: seq<Event>, slots: seq<int>, j: nat, sig: int)
    requires j == |slots| < 10 && sig != FREE && Reached(es, slots + Frees(10 - j), 0)
    requires forall k | 0 <= k < j :: slots[k] != sig && slots[k] != FREE
    ensures Reached(es + [Arrive(sig)], slots + [sig] + Frees(9 - j), 0)
  {
    ArriveAt(es, slots + Frees(10 - j), 0, sig, j);
    assert (slots + Frees(10 - j))[j := sig] == slots + [sig] + Frees(9 - j);
  }

  function Frees(n: nat): (r: seq<int>) {
    seq(n, _ => FREE)
  }

  lemma TableRound(es: seq<Event>, k: seq<int>, i: nat) returns (r: seq<Event>)
    requires SixKinds(k) && i < 4 && Reached(es, Table(k, i), i)
    ensures Reached(r, Table(k, i + 1), i + 1)
    ensures r == es + [Visit] + [Arrive(Previous(k, i))] + [Arrive(k[i])]
  {
    var t := Table(k, i);
    r := Round(es, t, i, Previous(k, i), k[i]);
    assert t[i := Previous(k, i)][6 + i := k[i]] == Table(k, i + 1);
  }

  /** Ten slots do not hold six kinds: arrivals timed between the dispatch steps can
      fill the table with two copies of five kinds, and the sixth is lost. */
  lemma SixKindsCanBeLost(k: seq<int>) returns (es: seq<Event>)
    requires SixKinds(k)
    ensures Within(es, set x | x in k)
    ensures Full(Run(Empty(SIGNAL_STACK), es).slots, k[4])
  {
    FillSix(k);
    es := ArriveAll(k);
    var i := 0;
    while i < 4
      invariant 0 <= i <= 4
      invariant Reached(es, Table(k, i), i) && Within(es, set x | x in k)
    {
      es := TableRound(es, k, i);
      i := i + 1;
    }
    var t := Table(k, 4);
    VisitAt(es, t, 4);
    ArriveAt(es + [Visit], t[4 := FREE], 5, k[3], 4);
    es := es + [Visit] + [Arrive(k[3])];
    var last := t[4 := FREE][4 := k[3]];
    assert forall j | 0 <= j < 10 :: last[j] != k[4] && last[j] != FREE;
    assert Reached(es, last, 5);
  }

  lemma Pick(kinds: set<int>, n: nat) returns (s: seq<int>)
    requires n <= |kinds|
    ensures |s| == n && (forall i | 0 <= i < n :: s[i] in kinds)
    ensures forall i, j | 0 <= i < j < n :: s[i] != s[j]
  {
    s := [];
    var left := kinds;
    while |s| < n
      invariant |s| + |left| == |kinds| && |s| <= n && left <= kinds
      invariant forall i | 0 <= i < |s| :: s[i] in kinds && s[i] !in left
      invariant forall i, j | 0 <= i < j < |s| :: s[i] != s[j]
    {
      var x := AnyOf(left);
      s, left := s + [x], left - {x};
    }
  }

  lemma AnyOf<T>(s: set<T>) returns (x: T)
    requires s != {}
    ensures x in s
  {
    x :| x in s;
  }

  // --------------------------------------------------------------------- in place

  class SignalTable {
    const slots: array<int>

    /** initng_signal_enable clears every slot. */
    constructor ()
      ensures fresh(slots) && slots[..] == Empty(SIGNAL_STACK).slots
    {
      slots := new int[SIGNAL_STACK](_ => FREE);
    }

    /** set_signal. */
    method SetSignal(sig: int) returns (stored: bool)
      modifies slots
      ensures slots[..] == Record(old(slots[..]), sig)
      ensures stored == !Full(old(slots[..]), sig)
    {
      ghost var s := slots[..];
      var i := 0;
      while i < slots.Length
        invariant 0 <= i <= slots.Length && slots[..] == s
        invariant Spot(s, sig, 0) == Spot(s, sig, i)
      {
        if slots[i] == sig {
          assert s[i := sig] == s;
          return true;
        }
        if slots[i] == FREE {
          slots[i] := sig;
          assert slots[..] == s[i := sig];
          return true;
        }
        i := i + 1;
      }
      return false;
    }

    /** Signals that arrive while the main program is between two steps. */
    method Arrivals(sigs: seq<int>, ghost before: State)
      requires Ok(before) && before.slots == slots[..]
      modifies slots
      ensures Run(before, ArriveAll(sigs)) == before.(slots := slots[..])
    {
      var i := 0;
      while i < |sigs|
        invariant 0 <= i <= |sigs|
        invariant Run(before, ArriveAll(sigs[..i])) == before.(slots := slots[..])
      {
        assert ArriveAll(sigs[..i + 1]) == ArriveAll(sigs[..i]) + [Arrive(sigs[i])];
        RunSnoc(before, ArriveAll(sigs[..i]), Arrive(sigs[i]));
        var _ := SetSignal(sigs[i]);
        i := i + 1;
      }
      assert sigs[..|sigs|] == sigs;
    }

    /** Clear one slot and hand its signal out. */
    method TakeSlot(i: nat, out: seq<int>) returns (r: seq<int>)
      requires i < slots.Length
      modifies slots
      ensures slots[..] == old(slots[..])[i := FREE]
      ensures r == if old(slots[i]) == FREE then out else out + [old(slots[i])]
    {
      if slots[i] == FREE { return out; }
      var sig := slots[i];
      slots[i] := FREE;
      return out + [sig];
    }

    /** initng_signal_dispatch, with `arrivals[i]` arriving while slot `i`'s signal is
        being handled: one whole pass of the run. */
    method Dispatch(arrivals: seq<seq<int>>) returns (out: seq<int>)
      requires |arrivals| == slots.Length > 0
      modifies slots
      ensures var r := Run(State(old(slots[..]), 0, []), Pass(arrivals));
              r.i == 0 && r.slots == slots[..] && r.out == out
    {
      ghost var st0 := State(slots[..], 0, []);
      ghost var st := st0;
      out := [];
      var i := 0;
      while i < slots.Length
        invariant 0 <= i <= slots.Length
        invariant st == Run(st0, Pass(arrivals[..i]))
        invariant st == State(slots[..], if i == slots.Length then 0 else i, out)
      {
        ghost var visited := Step(st, Visit);
        out := TakeSlot(i, out);
        Arrivals(arrivals[i], visited);
        PassSnoc(st0, arrivals, i);
        st := Run(visited, ArriveAll(arrivals[i]));
        i := i + 1;
      }
      assert arrivals[..i] == arrivals;
    }
  }

  function ArriveAll(sigs: seq<int>): (es: seq<Event>) {
    seq(|sigs|, i requires 0 <= i < |sigs| => Arrive(sigs[i]))
  }

  function Pass(arrivals: seq<seq<int>>): (es: seq<Event>) {
    if arrivals == [] then []
    else Pass(arrivals[..|arrivals| - 1]) + [Visit] + ArriveAll(arrivals[|arrivals| - 1])
  }

  lemma {:induction false} RunConcat(st: State, a: seq<Event>, b: seq<Event>)
    requires Ok(st)
    ensures Run(st, a + b) == Run(Run(st, a), b)
    decreases |b|
  {
    if b == [] {
      assert a + b == a;
    } else {
      var m := |b| - 1;
      assert (a + b)[..|a + b| - 1] == a + b[..m];
      RunConcat(st, a, b[..m]);
    }
  }

  lemma PassSnoc(st: State, arrivals: seq<seq<int>>, i: nat)
    requires Ok(st) && i < |arrivals|
    ensures Run(st, Pass(arrivals[..i + 1])) ==
            Run(Step(Run(st, Pass(arrivals[..i])), Visit), ArriveAll(arrivals[i]))
  {
    assert arrivals[..i + 1][..i] == arrivals[..i];
    RunConcat(st, Pass(arrivals[..i]) + [Visit], ArriveAll(arrivals[i]));
    RunSnoc(st, Pass(arrivals[..i]), Visit);
  }
}
