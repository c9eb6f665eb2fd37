/**
  Recorders that interrupt each other.  The handlers are installed with an empty mask, so
  while one signal is being recorded, another kind can arrive, be recorded and return; the
  signal's own kind is held back meanwhile.

  What is recorded between two steps of the main program is one burst: an arrival, with the
  arrivals that interrupt it.  The main program goes on only after the whole burst.
 */
module SignalNesting {

  import opened Signals

  /** A recorder, and what interrupts it at each slot: before the slot is compared with the
      signal, before it is tested for being free, and between that test and the store. */
  datatype Arrival = Arrival(sig: int, gaps: seq<Gap>)

  datatype Gap = Gap(first: seq<Arrival>, second: seq<Arrival>, window: seq<Arrival>)

  datatype Point = First | Second | Window

  /** set_signal from slot `i` on: the slots after it, and the signals whose recorders have
      returned, in that order. */
  function Scan(slots: seq<int>, a: Arrival, i: nat): (r: (seq<int>, seq<int>))
    requires i <= |slots|
    ensures |r.0| == |slots|
    decreases a, |slots| - i + 1
  {
    if i == |slots| then (slots, [a.sig])
    else
      var (s1, o1) := At(slots, a, i, First);
      if s1[i] == a.sig then (s1, o1 + [a.sig])
      else
        var (s2, o2) := At(s1, a, i, Second);
        if s2[i] == FREE then
          var (s3, o3) := At(s2, a, i, Window);
          (s3[i := a.sig], o1 + o2 + o3 + [a.sig])
        else
          var (s4, o4) := Scan(s2, a, i + 1);
          (s4, o1 + o2 + o4)
  }

  /** The interruptions of `a` at one point. */
  function At(slots: seq<int>, a: Arrival, i: nat, p: Point): (r: (seq<int>, seq<int>))
    ensures |r.0| == |slots|
    decreases a, 0
  {
    if i >= |a.gaps| then (slots, [])
    else
      match p
      case First => RunAll(slots, a.gaps[i].first)
      case Second => RunAll(slots, a.gaps[i].second)
      case Window => RunAll(slots, a.gaps[i].window)
  }

  function RunAll(slots: seq<int>, b: seq<Arrival>): (r: (seq<int>, seq<int>))
    ensures |r.0| == |slots|
    decreases b, 0
  {
    if b == [] then (slots, [])
    else
      var (s1, o1) := Scan(slots, b[0], 0);
      var (s2, o2) := RunAll(s1, b[1..]);
      (s2, o1 + o2)
  }

  /** Of these kinds, and none of a kind that is being recorded around it. */
  predicate Held(a: Arrival, above: set<int>, kinds: set<int>)
    decreases a, 1
  {
    && a.sig in kinds && a.sig !in above
    && (forall i | 0 <= i < |a.gaps| ::
          && AllHeld(a.gaps[i].first, above + {a.sig}, kinds)
          && AllHeld(a.gaps[i].second, above + {a.sig}, kinds)
          && AllHeld(a.gaps[i].window, above + {a.sig}, kinds))
  }

  predicate AllHeld(b: seq<Arrival>, above: set<int>, kinds: set<int>)
    decreases b, 0
  {
    forall k | 0 <= k < |b| :: Held(b[k], above, kinds)
  }

  /** No recorder in it is interrupted between its test and its store. */
  predicate Windowless(a: Arrival)
    decreases a, 1
  {
    forall i | 0 <= i < |a.gaps| ::
      AllWindowless(a.gaps[i].first) && AllWindowless(a.gaps[i].second) && a.gaps[i].window == []
  }

  predicate AllWindowless(b: seq<Arrival>)
    decreases b, 0
  {
    forall k | 0 <= k < |b| :: Windowless(b[k])
  }

  // --------------------------------------------------------- one recorder at a time

  function RecordAll(slots: seq<int>, sigs: seq<int>): (r: seq<int>)
    ensures |r| == |slots|
    decreases |sigs|
  {
    if sigs == [] then slots else RecordAll(Record(slots, sigs[0]), sigs[1..])
  }

  lemma {:induction false} RecordAllConcat(slots: seq<int>, a: seq<int>, b: seq<int>)
    ensures RecordAll(slots, a + b) == RecordAll(RecordAll(slots, a), b)
    decreases |a|
  {
    if a == [] {
      assert a + b == b;
    } else {
      assert (a + b)[1..] == a[1..] + b;
      RecordAllConcat(Record(slots, a[0]), a[1..], b);
    }
  }

  lemma RecordOne(slots: seq<int>, a: seq<int>, sig: int)
    ensures RecordAll(slots, a + [sig]) == Record(RecordAll(slots, a), sig)
  {
    RecordAllConcat(slots, a, [sig]);
    var r := RecordAll(slots, a);
    assert [sig][1..] == [];
    assert RecordAll(r, [sig]) == RecordAll(Record(r, sig), []);
  }

  /** A taken slot stays as it is, and no signal appears that was not recorded. */
  lemma {:induction false} RecordAllKeeps(slots: seq<int>, sigs: seq<int>, k: nat)
    requires k < |slots|
    ensures slots[k] != FREE ==> RecordAll(slots, sigs)[k] == slots[k]
    ensures RecordAll(slots, sigs)[k] == slots[k] || RecordAll(slots, sigs)[k] in sigs
    decreases |sigs|
  {
    if sigs != [] { RecordAllKeeps(Record(slots, sigs[0]), sigs[1..], k); }
  }

  /** These signals are of these kinds, and none of those above. */
  predicate Between(sigs: seq<int>, above: set<int>, kinds: set<int>) {
    forall x <- sigs :: x in kinds && x !in above
  }

  /** A slot that the recorder has passed is passed for good. */
  lemma PassedStays(slots: seq<int>, sigs: seq<int>, sig: int, i: nat)
    requires i <= |slots| && sig !in sigs && forall k | 0 <= k < i :: slots[k] != sig && slots[k] != FREE
    ensures forall k | 0 <= k < i :: RecordAll(slots, sigs)[k] != sig && RecordAll(slots, sigs)[k] != FREE
  {
    forall k | 0 <= k < i ensures RecordAll(slots, sigs)[k] != sig && RecordAll(slots, sigs)[k] != FREE {
      RecordAllKeeps(slots, sigs, k);
    }
  }

  lemma StoresAt(slots: seq<int>, sig: int, i: nat)
    requires i <= |slots| && forall k | 0 <= k < i :: slots[k] != sig && slots[k] != FREE
    ensures i == |slots| ==> Record(slots, sig) == slots
    ensures i < |slots| && (slots[i] == sig || slots[i] == FREE) ==> Record(slots, sig) == slots[i := sig]
  {
    if i < |slots| && (slots[i] == sig || slots[i] == FREE) { assert Spot(slots, sig, 0) == i; }
  }

  /** Interruptions anywhere but between test and store change nothing: the burst leaves what
      its recorders would leave one after the other, in the order in which they return. */
  lemma {:induction false} ScanIsSequential(slots: seq<int>, a: Arrival, i: nat, above: set<int>, kinds: set<int>)
    requires i <= |slots| && FREE !in kinds && Held(a, above, kinds) && Windowless(a)
    requires forall k | 0 <= k < i :: slots[k] != a.sig && slots[k] != FREE
    ensures var (r, o) := Scan(slots, a, i); r == RecordAll(slots, o) && Between(o, above, kinds)
    decreases a, |slots| - i + 1
  {
    if i == |slots| {
      StoresAt(slots, a.sig, i);
      RecordOne(slots, [], a.sig);
      assert [] + [a.sig] == [a.sig];
    } else {
      var (s1, o1) := At(slots, a, i, First);
      AtIsSequential(slots, a, i, First, above, kinds);
      PassedStays(slots, o1, a.sig, i);
      if s1[i] == a.sig {
        StoresAt(s1, a.sig, i);
        RecordOne(slots, o1, a.sig);
      } else {
        var (s2, o2) := At(s1, a, i, Second);
        AtIsSequential(s1, a, i, Second, above, kinds);
        PassedStays(s1, o2, a.sig, i);
        RecordAllConcat(slots, o1, o2);
        if s2[i] == FREE {
          StoresAt(s2, a.sig, i);
          assert At(s2, a, i, Window) == (s2, []);
          assert o1 + o2 + [] == o1 + o2;
          RecordOne(slots, o1 + o2, a.sig);
        } else {
          RecordAllKeeps(s1, o2, i);
          ScanIsSequential(s2, a, i + 1, above, kinds);
          RecordAllConcat(slots, o1 + o2, Scan(s2, a, i + 1).1);
        }
      }
    }
  }

  lemma {:induction false} AtIsSequential(slots: seq<int>, a: Arrival, i: nat, p: Point, above: set<int>, kinds: set<int>)
    requires FREE !in kinds && Held(a, above, kinds) && Windowless(a)
    ensures var (r, o) := At(slots, a, i, p); r == RecordAll(slots, o) && Between(o, above + {a.sig}, kinds)
    decreases a, 0
  {
    if i < |a.gaps| {
      match p
      case First => AllSequential(slots, a.gaps[i].first, above + {a.sig}, kinds);
      case Second => AllSequential(slots, a.gaps[i].second, above + {a.sig}, kinds);
      case Window =>
    }
  }

  lemma {:induction false} AllSequential(slots: seq<int>, b: seq<Arrival>, above: set<int>, kinds: set<int>)
    requires FREE !in kinds && AllHeld(b, above, kinds) && AllWindowless(b)
    ensures var (r, o) := RunAll(slots, b); r == RecordAll(slots, o) && Between(o, above, kinds)
    decreases b, 0
  {
    if b != [] {
      assert Held(b[0], above, kinds) && Windowless(b[0]);
      ScanIsSequential(slots, b[0], 0, above, kinds);
      var (s1, o1) := Scan(slots, b[0], 0);
      assert AllHeld(b[1..], above, kinds) && AllWindowless(b[1..]);
      AllSequential(s1, b[1..], above, kinds);
      RecordAllConcat(slots, o1, RunAll(s1, b[1..]).1);
    }
  }

  // ------------------------------------------------------------------------- runs

  /** A burst, or a step of the dispatch. */
  datatype Event = Burst(a: Arrival) | Look

  function Next(st: State, e: Event): (r: State)
    requires Ok(st)
    ensures Ok(r) && |r.slots| == |st.slots|
  {
    match e
    case Burst(a) => st.(slots := Scan(st.slots, a, 0).0)
    case Look => Step(st, Visit)
  }

  function After(st: State, es: seq<Event>): (r: State)
    requires Ok(st)
    ensures Ok(r) && |r.slots| == |st.slots|
  {
    if es == [] then st else Next(After(st, es[..|es| - 1]), es[|es| - 1])
  }

  predicate OfKinds(es: seq<Event>, kinds: set<int>) {
    forall k | 0 <= k < |es| :: es[k].Burst? ==> Held(es[k].a, {}, kinds)
  }

  predicate NoWindows(es: seq<Event>) {
    forall k | 0 <= k < |es| :: es[k].Burst? ==> Windowless(es[k].a)
  }

  /** Every signal of the burst is in the table when the burst is over. */
  predicate LosesNothing(slots: seq<int>, a: Arrival) {
    var (r, o) := Scan(slots, a, 0);
    forall x <- o :: x in r
  }

  /** The same run without interruptions. */
  function Flat(st: State, es: seq<Event>): (r: seq<Signals.Event>)
    requires Ok(st)
  {
    if es == [] then []
    else
      var m := |es| - 1;
      Flat(st, es[..m]) +
      match es[m]
      case Burst(a) => ArriveAll(Scan(After(st, es[..m]).slots, a, 0).1)
      case Look => [Visit]
  }

  lemma {:induction false} ArriveAllRecords(st: State, sigs: seq<int>)
    requires Ok(st)
    ensures Run(st, ArriveAll(sigs)) == st.(slots := RecordAll(st.slots, sigs))
    decreases |sigs|
  {
    if sigs != [] {
      var m := |sigs| - 1;
      ArriveAllRecords(st, sigs[..m]);
      assert ArriveAll(sigs) == ArriveAll(sigs[..m]) + [Arrive(sigs[m])];
      RunSnoc(st, ArriveAll(sigs[..m]), Arrive(sigs[m]));
      assert sigs == sigs[..m] + [sigs[m]];
      RecordOne(st.slots, sigs[..m], sigs[m]);
    }
  }

  lemma {:induction false} AfterIsFlat(st: State, es: seq<Event>, kinds: set<int>)
    requires Ok(st) && FREE !in kinds && OfKinds(es, kinds) && NoWindows(es)
    ensures After(st, es) == Run(st, Flat(st, es)) && Within(Flat(st, es), kinds)
    decreases |es|
  {
    if es != [] {
      var m := |es| - 1;
      AfterIsFlat(st, es[..m], kinds);
      var before := After(st, es[..m]);
      match es[m]
      case Burst(a) =>
        ScanIsSequential(before.slots, a, 0, {}, kinds);
        var o := Scan(before.slots, a, 0).1;
        ArriveAllRecords(before, o);
        RunConcat(st, Flat(st, es[..m]), ArriveAll(o));
      case Look =>
        RunSnoc(st, Flat(st, es[..m]), Visit);
    }
  }

  // --------------------------------------------------------------- what is safe

  lemma {:induction false} EachIsKept(n: nat, es: seq<Signals.Event>, sigs: seq<int>, kinds: set<int>)
    requires n > 0 && n >= 2 * |kinds| - 1 && FREE !in kinds && Within(es, kinds) && Between(sigs, {}, kinds)
    ensures forall x <- sigs :: x in RecordAll(Run(Empty(n), es).slots, sigs)
    decreases |sigs|
  {
    if sigs != [] {
      var slots := Run(Empty(n), es).slots;
      EnoughSlotsLoseNothing(n, es, kinds, sigs[0]);
      var once := Record(slots, sigs[0]);
      RunSnoc(Empty(n), es, Arrive(sigs[0]));
      EachIsKept(n, es + [Arrive(sigs[0])], sigs[1..], kinds);
      var k :| 0 <= k < |once| && once[k] == sigs[0];
      RecordAllKeeps(once, sigs[1..], k);
      forall x <- sigs ensures x in RecordAll(slots, sigs) {
        if x != sigs[0] { assert x in sigs[1..]; }
      }
    }
  }

  /** With no interruption between test and store, 2K - 1 slots lose none of K kinds. */
  lemma EnoughSlotsWithoutWindows(n: nat, es: seq<Event>, a: Arrival, kinds: set<int>)
    requires n > 0 && n >= 2 * |kinds| - 1 && FREE !in kinds
    requires OfKinds(es, kinds) && NoWindows(es) && Held(a, {}, kinds) && Windowless(a)
    ensures LosesNothing(After(Empty(n), es).slots, a)
  {
    AfterIsFlat(Empty(n), es, kinds);
    var slots := After(Empty(n), es).slots;
    ScanIsSequential(slots, a, 0, {}, kinds);
    EachIsKept(n, Flat(Empty(n), es), Scan(slots, a, 0).1, kinds);
  }

  /** A run without interruptions, as one of bursts. */
  function Plain(es: seq<Signals.Event>): (r: seq<Event>) {
    seq(|es|, i requires 0 <= i < |es| => if es[i].Arrive? then Burst(Arrival(es[i].sig, [])) else Look)
  }

  lemma {:induction false} PlainScan(slots: seq<int>, sig: int, i: nat)
    requires i <= |slots| && forall k | 0 <= k < i :: slots[k] != sig && slots[k] != FREE
    ensures Scan(slots, Arrival(sig, []), i) == (Record(slots, sig), [sig])
    decreases |slots| - i
  {
    StoresAt(slots, sig, i);
    var a := Arrival(sig, []);
    var none: seq<int> := [];
    assert none + [sig] == [sig] && none + none + none + [sig] == [sig] && none + none + [sig] == [sig];
    if i < |slots| && slots[i] != sig && slots[i] != FREE { PlainScan(slots, sig, i + 1); }
    else if i < |slots| && slots[i] == sig { assert slots[i := sig] == slots; }
  }

  lemma {:induction false} PlainRun(st: State, es: seq<Signals.Event>)
    requires Ok(st)
    ensures After(st, Plain(es)) == Run(st, es)
    decreases |es|
  {
    if es != [] {
      var m := |es| - 1;
      PlainRun(st, es[..m]);
      assert Plain(es)[..m] == Plain(es[..m]);
      if es[m].Arrive? { PlainScan(Run(st, es[..m]).slots, es[m].sig, 0); }
    }
  }

  /** A run and a burst after it, of these kinds, with no interruption between test and store. */
  predicate NoneInWindow(es: seq<Event>, a: Arrival, kinds: set<int>) {
    OfKinds(es, kinds) && NoWindows(es) && Held(a, {}, kinds) && Windowless(a)
  }

  lemma SixKindsLoseOne(kinds: set<int>) returns (es: seq<Event>, a: Arrival)
    requires FREE !in kinds && |kinds| >= 6
    ensures NoneInWindow(es, a, kinds) && !LosesNothing(After(Empty(SIGNAL_STACK), es).slots, a)
  {
    var k := Pick(kinds, 6);
    var flat := SixKindsCanBeLost(k);
    PlainRun(Empty(SIGNAL_STACK), flat);
    es, a := Plain(flat), Arrival(k[4], []);
    var slots := After(Empty(SIGNAL_STACK), es).slots;
    PlainScan(slots, k[4], 0);
    assert k[4] in Scan(slots, a, 0).1 && k[4] !in Scan(slots, a, 0).0;
  }

  /** With the ten slots the program has: as long as no recorder is interrupted between its
      test and its store, no interleaving loses a signal if and only if at most five kinds
      occur. */
  lemma TenSlotsHoldFiveKinds(kinds: set<int>)
    requires FREE !in kinds
    ensures (forall es: seq<Event>, a | NoneInWindow(es, a, kinds) ::
               LosesNothing(After(Empty(SIGNAL_STACK), es).slots, a)) <==> |kinds| <= 5
  {
    if |kinds| <= 5 {
      forall es: seq<Event>, a | NoneInWindow(es, a, kinds)
        ensures LosesNothing(After(Empty(SIGNAL_STACK), es).slots, a)
      {
        EnoughSlotsWithoutWindows(SIGNAL_STACK, es, a, kinds);
      }
    } else {
      var es, a := SixKindsLoseOne(kinds);
    }
  }

  /** The window: one recorder has found a slot free, another takes it, and the first one
      stores over it. */
  lemma TwoKindsCanBeLost(n: nat, x: int, y: int)
    requires n > 0 && x != y && x != FREE && y != FREE
    ensures var a := Arrival(x, [Gap([], [], [Arrival(y, [])])]);
            Held(a, {}, {x, y}) && !LosesNothing(Empty(n).slots, a)
  {
    var slots := Empty(n).slots;
    var b := Arrival(y, []);
    var a := Arrival(x, [Gap([], [], [b])]);
    assert Held(b, {} + {x}, {x, y});
    assert AllHeld([], {} + {x}, {x, y}) && AllHeld([b], {} + {x}, {x, y});
    PlainScan(slots, y, 0);
    StoresAt(slots, y, 0);
    assert RunAll(slots, [b]) == (slots[0 := y], [y]) by {
      assert [b][1..] == [] && RunAll(slots[0 := y], []) == (slots[0 := y], []);
      assert [y] + [] == [y];
    }
    assert At(slots, a, 0, First) == (slots, []) && At(slots, a, 0, Second) == (slots, []);
    assert At(slots, a, 0, Window) == (slots[0 := y], [y]);
    var (r, o) := Scan(slots, a, 0);
    assert r == slots[0 := y][0 := x];
    var none: seq<int> := [];
    assert o == none + none + [y] + [x];
    assert o[0] == y && y !in r;
  }

  /** A kind is not interrupted by itself; so with one kind there is no window. */
  lemma {:induction false} OneKindHasNoWindows(a: Arrival, above: set<int>, kinds: set<int>)
    requires Held(a, above, kinds) && kinds <= above + {a.sig}
    ensures Windowless(a)
  {
    forall i | 0 <= i < |a.gaps|
      ensures a.gaps[i].first == [] && a.gaps[i].second == [] && a.gaps[i].window == []
    {
      FirstHeld(a.gaps[i].first, above + {a.sig}, kinds);
      FirstHeld(a.gaps[i].second, above + {a.sig}, kinds);
      FirstHeld(a.gaps[i].window, above + {a.sig}, kinds);
    }
  }

  lemma FirstHeld(b: seq<Arrival>, above: set<int>, kinds: set<int>)
    requires AllHeld(b, above, kinds)
    ensures b == [] || b[0].sig in kinds - above
  {
    if b != [] { assert Held(b[0], above, kinds); }
  }

  lemma OneKindIs(kinds: set<int>, x: int)
    requires |kinds| <= 1 && x in kinds
    ensures kinds == {x}
  {
    forall y | y in kinds ensures y == x {
      if y != x { TwoIn(kinds, x, y); }
    }
  }

  lemma TwoIn(kinds: set<int>, x: int, y: int)
    requires x in kinds && y in kinds && x != y
    ensures |kinds| >= 2
  {
    assert {x, y} <= kinds;
    assert kinds == {x} + (kinds - {x}) && y in kinds - {x};
  }

  /** With interruptions anywhere, whatever the number of slots: no interleaving loses a
      signal if and only if at most one kind occurs. */
  lemma OnlyOneKindIsSafe(n: nat, kinds: set<int>)
    requires n > 0 && FREE !in kinds
    ensures (forall es: seq<Event>, a | OfKinds(es, kinds) && Held(a, {}, kinds) :: LosesNothing(After(Empty(n), es).slots, a))
            <==> |kinds| <= 1
  {
    if |kinds| <= 1 {
      forall es: seq<Event>, a | OfKinds(es, kinds) && Held(a, {}, kinds) ensures LosesNothing(After(Empty(n), es).slots, a) {
        OneKindIs(kinds, a.sig);
        OneKindHasNoWindows(a, {}, kinds);
        forall k | 0 <= k < |es| ensures es[k].Burst? ==> Windowless(es[k].a) {
          if es[k].Burst? {
            OneKindIs(kinds, es[k].a.sig);
            OneKindHasNoWindows(es[k].a, {}, kinds);
          }
        }
        EnoughSlotsWithoutWindows(n, es, a, kinds);
      }
    } else {
      var k := Pick(kinds, 2);
      TwoKindsCanBeLost(n, k[0], k[1]);
      var a := Arrival(k[0], [Gap([], [], [Arrival(k[1], [])])]);
      assert Held(Arrival(k[1], []), {} + {k[0]}, kinds);
      assert Held(a, {}, kinds) && OfKinds([], kinds);
      assert After(Empty(n), []) == Empty(n);
    }
  }

  // ----------------------------------------------- everything recorded is dispatched

  /** A slot that is taken when a burst begins is not touched by it, windows or not. */
  lemma {:induction false} ScanKeepsTaken(slots: seq<int>, a: Arrival, i: nat, j: nat)
    requires i <= |slots| && j < |slots| && slots[j] != FREE
    ensures Scan(slots, a, i).0[j] == slots[j]
    decreases a, |slots| - i + 1
  {
    if i < |slots| {
      AtKeepsTaken(slots, a, i, First, j);
      var s1 := At(slots, a, i, First).0;
      if s1[i] != a.sig {
        AtKeepsTaken(s1, a, i, Second, j);
        var s2 := At(s1, a, i, Second).0;
        if s2[i] == FREE { AtKeepsTaken(s2, a, i, Window, j); } else { ScanKeepsTaken(s2, a, i + 1, j); }
      }
    }
  }

  lemma {:induction false} AtKeepsTaken(slots: seq<int>, a: Arrival, i: nat, p: Point, j: nat)
    requires j < |slots| && slots[j] != FREE
    ensures At(slots, a, i, p).0[j] == slots[j]
    decreases a, 0
  {
    if i < |a.gaps| {
      match p
      case First => AllKeepTaken(slots, a.gaps[i].first, j);
      case Second => AllKeepTaken(slots, a.gaps[i].second, j);
      case Window => AllKeepTaken(slots, a.gaps[i].window, j);
    }
  }

  lemma {:induction false} AllKeepTaken(slots: seq<int>, b: seq<Arrival>, j: nat)
    requires j < |slots| && slots[j] != FREE
    ensures RunAll(slots, b).0[j] == slots[j]
    decreases b, 0
  {
    if b != [] {
      ScanKeepsTaken(slots, b[0], 0, j);
      AllKeepTaken(Scan(slots, b[0], 0).0, b[1..], j);
    }
  }

  function Looks(es: seq<Event>): (n: nat) {
    if es == [] then 0
    else Looks(es[..|es| - 1]) + if es[|es| - 1].Look? then 1 else 0
  }

  /** How many steps of the dispatch loop before it is at slot `j`. */
  function Distance(st: State, j: nat): (d: nat)
    requires Ok(st) && j < |st.slots|
  {
    if j >= st.i then j - st.i else |st.slots| - st.i + j
  }

  /** A signal in the table stays in its slot until the loop comes by, and is dispatched
      then: in this pass if its slot is still ahead, otherwise in the next. */
  lemma {:induction false} RecordedIsDispatched(st: State, es: seq<Event>, j: nat)
    requires Ok(st) && j < |st.slots| && st.slots[j] != FREE
    ensures var r := After(st, es);
            if Looks(es) <= Distance(st, j) then
              r.slots[j] == st.slots[j] && Distance(r, j) == Distance(st, j) - Looks(es) && st.out <= r.out
            else st.out <= r.out && st.slots[j] in r.out[|st.out|..]
    decreases |es|
  {
    if es != [] {
      var m := |es| - 1;
      RecordedIsDispatched(st, es[..m], j);
      var r, r' := After(st, es[..m]), After(st, es);
      assert r.out <= r'.out;
      if es[m].Burst? {
        if r.slots[j] != FREE { ScanKeepsTaken(r.slots, es[m].a, 0, j); }
      } else if Looks(es[..m]) == Distance(st, j) {
        assert r.i == j && r'.out[|r.out|] == st.slots[j];
        assert r'.out[|st.out|..][|r.out| - |st.out|] == st.slots[j];
      } else if Looks(es[..m]) > Distance(st, j) {
        var k :| 0 <= k < |r.out| - |st.out| && r.out[|st.out|..][k] == st.slots[j];
        assert r'.out[|st.out|..][k] == r.out[|st.out| + k];
      }
    }
  }

  /** Whatever a burst leaves in the table is dispatched within two passes. */
  lemma WithinTwoPasses(st: State, a: Arrival, sig: int, es: seq<Event>)
    requires Ok(st) && sig != FREE && sig in Scan(st.slots, a, 0).0
    requires Looks(es) >= 2 * |st.slots| - st.i
    ensures var r := After(Next(st, Burst(a)), es);
            st.out <= r.out && sig in r.out[|st.out|..]
  {
    var st1 := Next(st, Burst(a));
    var j :| 0 <= j < |st1.slots| && st1.slots[j] == sig;
    RecordedIsDispatched(st1, es, j);
  }

  // --------------------------------------------------------------------- in place

  /** set_signal on the table itself, with its interruptions. */
  method SetSignal(slots: array<int>, a: Arrival)
    modifies slots
    ensures slots[..] == Scan(old(slots[..]), a, 0).0
    decreases a, 1
  {
    var i := 0;
    while i < slots.Length
      invariant i <= slots.Length
      invariant Scan(slots[..], a, i).0 == Scan(old(slots[..]), a, 0).0
    {
      ghost var s := slots[..];
      if i < |a.gaps| { Interruptions(slots, a.gaps[i].first); }
      assert slots[..] == At(s, a, i, First).0;
      if slots[i] == a.sig { return; }
      ghost var s1 := slots[..];
      if i < |a.gaps| { Interruptions(slots, a.gaps[i].second); }
      assert slots[..] == At(s1, a, i, Second).0;
      if slots[i] == FREE {
        ghost var s2 := slots[..];
        if i < |a.gaps| { Interruptions(slots, a.gaps[i].window); }
        ghost var s3 := slots[..];
        assert s3 == At(s2, a, i, Window).0;
        slots[i] := a.sig;
        assert slots[..] == s3[i := a.sig];
        return;
      }
      i := i + 1;
    }
  }

  method Interruptions(slots: array<int>, b: seq<Arrival>)
    modifies slots
    ensures slots[..] == RunAll(old(slots[..]), b).0
    decreases b, 0
  {
    if b != [] {
      SetSignal(slots, b[0]);
      Interruptions(slots, b[1..]);
    }
  }
}
