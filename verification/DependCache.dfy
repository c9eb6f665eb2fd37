/**
  The resumable dependency checks.  A service remembers in `depend_cache` how far
  the last check of its dependencies came, and the next check goes on from there.

  `Call` is one check of a list whose items pass, are skipped without moving the
  cache, or halt the check.  The start check walks the REQUIRE, NEED and USE
  entries of a service; the stop check walks the services that may depend on it.
 */
module DependCache {
  import opened Basics
  import opened Entries
  import opened ServiceState

  /** TRUE, FALSE and FAIL. */
  datatype Verdict = Yes | NotYet | Never

  datatype Status = Pass | Skip | Halt(v: Verdict)

  // ---------------------------------------------------------------- one check

  function Walk(sts: seq<Status>, i: nat, cache: nat): (r: (Verdict, nat))
    requires i <= |sts|
    decreases |sts| - i
  {
    if i == |sts| then (Yes, cache)
    else if i < cache then Walk(sts, i + 1, cache)
    else
      match sts[i]
      case Pass => Walk(sts, i + 1, i + 1)
      case Skip => Walk(sts, i + 1, cache)
      case Halt(v) => (v, cache)
  }

  /** A whole check: a walk that comes to the end may still be vetoed by a module,
      and resets the cache only if it is not. */
  function Call(sts: seq<Status>, cache: nat, veto: bool): (r: (Verdict, nat)) {
    var (v, c) := Walk(sts, 0, cache);
    if v != Yes then (v, c)
    else if veto then (NotYet, c)
    else (Yes, 0)
  }

  predicate Halts(st: Status) {
    st.Halt? && st.v != Yes
  }

  predicate WellFormed(sts: seq<Status>) {
    forall i | 0 <= i < |sts| :: sts[i].Halt? ==> Halts(sts[i])
  }

  /** The first item from `i` on that halts. */
  function FirstHalt(sts: seq<Status>, i: nat): (r: nat)
    requires i <= |sts|
    ensures i <= r <= |sts|
    ensures forall j | i <= j < r :: !sts[j].Halt?
    ensures r < |sts| ==> sts[r].Halt?
    decreases |sts| - i
  {
    if i == |sts| || sts[i].Halt? then i else FirstHalt(sts, i + 1)
  }

  /** The walk answers by the first halting item past the cache, and moves the
      cache over no item that halts. */
  lemma {:induction false} WalkAnswer(sts: seq<Status>, i: nat, cache: nat)
    requires WellFormed(sts) && i <= |sts|
    ensures var r := Walk(sts, i, cache);
            var h := FirstHalt(sts, if i < cache <= |sts| then cache else if i < cache then |sts| else i);
            && r.0 == (if h < |sts| then sts[h].v else Yes)
            && cache <= r.1
            && (r.1 == cache || r.1 <= h)
    decreases |sts| - i
  {
    if i < |sts| {
      if i < cache || sts[i].Skip? { WalkAnswer(sts, i + 1, cache); }
      else if sts[i].Pass? { WalkAnswer(sts, i + 1, i + 1); }
    }
  }

  function Min(a: nat, b: nat): (r: nat) { if a <= b then a else b }

  /** Exactly: yes if and only if nothing past the cache halts and no module vetoes. */
  lemma CallIsYes(sts: seq<Status>, cache: nat, veto: bool)
    requires WellFormed(sts)
    ensures Call(sts, cache, veto).0 == Yes <==>
            !veto && forall i | Min(cache, |sts|) <= i < |sts| :: !sts[i].Halt?
    ensures Call(sts, cache, veto).0 != Yes ==> cache <= Call(sts, cache, veto).1
  {
    WalkAnswer(sts, 0, cache);
    var h := FirstHalt(sts, Min(cache, |sts|));
    if h < |sts| { assert Halts(sts[h]); }
  }

  /** With the items already passed still passing, the resumed check gives the
      verdict that a check from the beginning would give. */
  lemma ResumedAgreesWithPlain(sts: seq<Status>, cache: nat, veto: bool)
    requires WellFormed(sts) && cache <= |sts|
    requires forall i | 0 <= i < cache :: !sts[i].Halt?
    ensures Call(sts, cache, veto).0 == Call(sts, 0, veto).0
  {
    WalkAnswer(sts, 0, cache);
    WalkAnswer(sts, 0, 0);
    FirstHaltAfter(sts, 0, cache);
  }

  lemma {:induction false} FirstHaltAfter(sts: seq<Status>, i: nat, k: nat)
    requires i <= k <= |sts| && forall j | i <= j < k :: !sts[j].Halt?
    ensures FirstHalt(sts, i) == FirstHalt(sts, k)
    decreases k - i
  {
    if i < k { FirstHaltAfter(sts, i + 1, k); }
  }

  // --------------------------------------------------------- a sequence of checks

  /** One check of a run: what each item was at the time, and the veto. */
  datatype Look = Look(sts: seq<Status>, veto: bool)

  predicate Looks(run: seq<Look>, n: nat) {
    forall k | 0 <= k < |run| :: |run[k].sts| == n && WellFormed(run[k].sts)
  }

  /** The cache after the checks of `run`; it was `from` before them. */
  function CacheAfter(run: seq<Look>, from: nat): (c: nat) {
    if run == [] then from
    else
      var last := run[|run| - 1];
      Call(last.sts, CacheAfter(run[..|run| - 1], from), last.veto).1
  }

  function VerdictOf(run: seq<Look>, from: nat): (v: Verdict)
    requires run != []
  {
    var last := run[|run| - 1];
    Call(last.sts, CacheAfter(run[..|run| - 1], from), last.veto).0
  }

  /** No check of the run said yes. */
  predicate StillWaiting(run: seq<Look>, from: nat) {
    forall k | 0 < k <= |run| :: VerdictOf(run[..k], from) != Yes
  }

  /** Item `i` did not halt in some check of the run. */
  predicate PassedOnce(run: seq<Look>, i: nat) {
    exists k | 0 <= k < |run| :: i < |run[k].sts| && !run[k].sts[i].Halt?
  }

  lemma PassedEarlier(run: seq<Look>, i: nat)
    requires run != [] && PassedOnce(run[..|run| - 1], i)
    ensures PassedOnce(run, i)
  {
    var k :| 0 <= k < |run| - 1 && i < |run[..|run| - 1][k].sts| && !run[..|run| - 1][k].sts[i].Halt?;
    assert run[k] == run[..|run| - 1][k];
  }

  /** While the checks keep failing, every item that the cache has moved over has passed in
      one of them. */
  lemma {:induction false} CacheIsEarned(run: seq<Look>, n: nat, from: nat)
    requires Looks(run, n) && StillWaiting(run, from)
    ensures from <= CacheAfter(run, from) && (CacheAfter(run, from) <= n || CacheAfter(run, from) == from)
    ensures forall i | from <= i < CacheAfter(run, from) :: PassedOnce(run, i)
    decreases |run|
  {
    if run != [] {
      var m := |run| - 1;
      var before, last := run[..m], run[m];
      assert StillWaiting(before, from) by {
        forall k | 0 < k <= m ensures VerdictOf(before[..k], from) != Yes { assert before[..k] == run[..k]; }
      }
      CacheIsEarned(before, n, from);
      var c := CacheAfter(before, from);
      assert run[..|run|] == run;
      WalkAnswer(last.sts, 0, c);
      forall i | from <= i < CacheAfter(run, from) ensures PassedOnce(run, i) {
        if i < c { PassedEarlier(run, i); }
        else { assert i < |run[m].sts| && !run[m].sts[i].Halt?; }
      }
    }
  }

  /** The first yes after a run of failing checks, each made at a different moment: every
      item from where the cache stood at first has passed in at least one of the checks. */
  lemma YesMeansEachPassed(run: seq<Look>, n: nat, from: nat, i: nat)
    requires run != [] && Looks(run, n) && from <= i < n
    requires StillWaiting(run[..|run| - 1], from) && VerdictOf(run, from) == Yes
    ensures PassedOnce(run, i)
  {
    var m := |run| - 1;
    var before, last := run[..m], run[m];
    CacheIsEarned(before, n, from);
    CallIsYes(last.sts, CacheAfter(before, from), last.veto);
    if i < CacheAfter(before, from) { PassedEarlier(run, i); }
    else { assert i < |run[m].sts| && !run[m].sts[i].Halt?; }
  }

  // --------------------------------------------------------------- the start check

  predicate Relevant(e: Entry) {
    e.kind != Other && e.target.Some?
  }

  /** The entries the check counts, in order. */
  function Deps(entries: seq<Entry>): (r: seq<Entry>)
    ensures forall i | 0 <= i < |r| :: Relevant(r[i])
  {
    if entries == [] then []
    else
      var n := |entries| - 1;
      Deps(entries[..n]) + if Relevant(entries[n]) then [entries[n]] else []
  }

  /** Those are, each in its place, the entries that require, need or use a service. */
  lemma {:induction false} DepsAreAll(entries: seq<Entry>)
    ensures forall e :: multiset(Deps(entries))[e] ==
              if e.kind in {Require, Need, Use} && e.target.Some? then multiset(entries)[e] else 0
    decreases |entries|
  {
    if entries != [] {
      var n := |entries| - 1;
      DepsAreAll(entries[..n]);
      assert entries == entries[..n] + [entries[n]];
    }
  }

  /** Rough states by name: the services that are registered right now. */
  type View = map<Name, Rough>

  function StartStatus(e: Entry, view: View): (r: Status)
    requires Relevant(e)
  {
    if e.target.value !in view then
      match e.kind
      case Use => Skip
      case Require => Halt(Never)
      case _ => Halt(NotYet)
    else
      match view[e.target.value]
      case Up => Pass
      case Failed => Halt(Never)
      case _ => Halt(NotYet)
  }

  function StartStatuses(deps: seq<Entry>, view: View): (r: seq<Status>)
    requires forall i | 0 <= i < |deps| :: Relevant(deps[i])
    ensures |r| == |deps| && WellFormed(r)
  {
    seq(|deps|, i requires 0 <= i < |deps| => StartStatus(deps[i], view))
  }

  /** A moment at which the start check is made. */
  datatype Moment = Moment(view: View, veto: bool)

  function StartRun(deps: seq<Entry>, ms: seq<Moment>): (r: seq<Look>)
    requires forall i | 0 <= i < |deps| :: Relevant(deps[i])
    ensures |r| == |ms| && Looks(r, |deps|)
    ensures forall k | 0 <= k < |ms| :: r[k] == Look(StartStatuses(deps, ms[k].view), ms[k].veto)
  {
    seq(|ms|, k requires 0 <= k < |ms| => Look(StartStatuses(deps, ms[k].view), ms[k].veto))
  }

  predicate IsUp(view: View, n: Name) {
    n in view && view[n] == Up
  }

  /** Over any sequence of checks with any changes of state in between: when the
      check first says yes, every required or needed service, from where the cache
      stood at first, was registered and up at the moment of one of the checks. */
  lemma YesMeansSeenUp(entries: seq<Entry>, ms: seq<Moment>, from: nat, i: nat)
    requires ms != [] && from <= i < |Deps(entries)| && Deps(entries)[i].kind != Use
    requires var run := StartRun(Deps(entries), ms);
             StillWaiting(run[..|ms| - 1], from) && VerdictOf(run, from) == Yes
    ensures exists k | 0 <= k < |ms| :: IsUp(ms[k].view, Deps(entries)[i].target.value)
  {
    var deps := Deps(entries);
    var run := StartRun(deps, ms);
    YesMeansEachPassed(run, |deps|, from, i);
    var k :| 0 <= k < |run| && i < |run[k].sts| && !run[k].sts[i].Halt?;
    assert run[k].sts[i] == StartStatus(deps[i], ms[k].view);
    assert IsUp(ms[k].view, deps[i].target.value);
  }

  /** So from zero, and if none of those seen up has left that state since, all of them
      are up now. */
  lemma YesMeansAllUp(entries: seq<Entry>, ms: seq<Moment>)
    requires ms != []
    requires var run := StartRun(Deps(entries), ms);
             StillWaiting(run[..|ms| - 1], 0) && VerdictOf(run, 0) == Yes
    requires forall e, k | e in Deps(entries) && 0 <= k < |ms| && IsUp(ms[k].view, e.target.value) ::
               IsUp(ms[|ms| - 1].view, e.target.value)
    ensures forall e | e in Deps(entries) && e.kind != Use :: IsUp(ms[|ms| - 1].view, e.target.value)
  {
    var deps := Deps(entries);
    forall e | e in deps && e.kind != Use ensures IsUp(ms[|ms| - 1].view, e.target.value) {
      var i :| 0 <= i < |deps| && deps[i] == e;
      YesMeansSeenUp(entries, ms, 0, i);
    }
  }

  /** Two needed services, the first up only at the first check, the second only at
      the second: the check says yes with one of them down. */
  lemma YesWithADependencyDown(a: Name, b: Name)
    requires a != b
    ensures var deps := [Entry(Need, Some(a)), Entry(Need, Some(b))];
            var first, second := map[a := Up, b := Starting], map[a := Down, b := Up];
            var (v1, c1) := Call(StartStatuses(deps, first), 0, false);
            && v1 == NotYet
            && Call(StartStatuses(deps, second), c1, false).0 == Yes
            && !IsUp(second, a)
  {
    var deps := [Entry(Need, Some(a)), Entry(Need, Some(b))];
    var s1 := StartStatuses(deps, map[a := Up, b := Starting]);
    var s2 := StartStatuses(deps, map[a := Down, b := Up]);
    assert s1[0] == Pass && s1[1] == Halt(NotYet);
    assert s2[1] == Pass;
    assert Walk(s1, 1, 1) == (NotYet, 1);
    assert Walk(s2, 1, 1) == Walk(s2, 2, 2);
  }

  // ---------------------------------------------------------------- the stop check

  /** What the stop check reads of a service: its rough state, and whether its
      state's name says that it waits for its start dependencies. */
  datatype Seen = Seen(rough: Rough, waitsForStart: bool)

  /** The services in walk order, and those that directly depend on the one to stop. */
  datatype Dependents = Dependents(db: seq<Name>, self: Name, direct: set<Name>)

  predicate Settled(s: Seen) {
    s.rough == Down || s.rough == Failed || (s.rough == Starting && s.waitsForStart)
  }

  function StopStatus(d: Dependents, i: nat, view: map<Name, Seen>): (r: Status)
    requires i < |d.db| && d.db[i] in view
  {
    if d.db[i] == d.self || d.db[i] !in d.direct || Settled(view[d.db[i]]) then Pass else Halt(NotYet)
  }

  predicate Covers(d: Dependents, view: map<Name, Seen>) {
    forall i | 0 <= i < |d.db| :: d.db[i] in view
  }

  function StopStatuses(d: Dependents, view: map<Name, Seen>): (r: seq<Status>)
    requires Covers(d, view)
    ensures |r| == |d.db| && WellFormed(r)
  {
    seq(|d.db|, i requires 0 <= i < |d.db| => StopStatus(d, i, view))
  }

  datatype StopMoment = StopMoment(view: map<Name, Seen>, veto: bool)

  function StopRun(d: Dependents, ms: seq<StopMoment>): (r: seq<Look>)
    requires forall k | 0 <= k < |ms| :: Covers(d, ms[k].view)
    ensures |r| == |ms| && Looks(r, |d.db|)
    ensures forall k | 0 <= k < |ms| :: r[k] == Look(StopStatuses(d, ms[k].view), ms[k].veto)
  {
    seq(|ms|, k requires 0 <= k < |ms| => Look(StopStatuses(d, ms[k].view), ms[k].veto))
  }

  /** Dually, when the stop check first says yes, every direct dependent, from where the
      cache stood at first, was seen down, failed or waiting for its start dependencies
      at one of the checks. */
  lemma YesMeansDependentsSettled(d: Dependents, ms: seq<StopMoment>, from: nat, i: nat)
    requires ms != [] && forall k | 0 <= k < |ms| :: Covers(d, ms[k].view)
    requires var run := StopRun(d, ms);
             StillWaiting(run[..|ms| - 1], from) && VerdictOf(run, from) == Yes
    requires from <= i < |d.db| && d.db[i] in d.direct && d.db[i] != d.self
    ensures exists k | 0 <= k < |ms| :: d.db[i] in ms[k].view && Settled(ms[k].view[d.db[i]])
  {
    var run := StopRun(d, ms);
    YesMeansEachPassed(run, |d.db|, from, i);
    var k :| 0 <= k < |run| && i < |run[k].sts| && !run[k].sts[i].Halt?;
    assert run[k].sts[i] == StopStatus(d, i, ms[k].view);
    assert Covers(d, ms[k].view);
  }

  // ---------------------------------------------------- a position left by the other check

  /** Both checks use one cache, and only a yes resets it.  A stop check that has not come
      to a yes leaves its position to the start check: here one service was passed on the
      way to a dependent that still runs, and the needed service, which is down and was
      never looked at, is taken as passed. */
  lemma StopLeavesItsPosition(self: Name, other: Name, user: Name, dep: Name)
    requires self != other && self != user && other != user
    ensures var d := Dependents([other, user], self, {user});
            var seen := map[other := Seen(Up, false), user := Seen(Up, false)];
            var (stop, left) := Call(StopStatuses(d, seen), 0, false);
            && stop == NotYet
            && Call(StartStatuses([Entry(Need, Some(dep))], map[dep := Down]), left, false).0 == Yes
  {
    var d := Dependents([other, user], self, {user});
    var seen := map[other := Seen(Up, false), user := Seen(Up, false)];
    var sts := StopStatuses(d, seen);
    assert sts[0] == Pass && sts[1] == Halt(NotYet);
    assert Walk(sts, 1, 1) == (NotYet, 1);
    assert Walk(sts, 0, 0) == Walk(sts, 1, 1);
    var start := StartStatuses([Entry(Need, Some(dep))], map[dep := Down]);
    assert Walk(start, 1, 1) == (Yes, 1);
  }

  /** Whatever the position: a yes means that all required and needed services are up at
      that moment exactly if those below the position are. */
  lemma YesMeansUpIffCachedAreUp(deps: seq<Entry>, left: nat, view: View, veto: bool)
    requires forall i | 0 <= i < |deps| :: Relevant(deps[i])
    requires Call(StartStatuses(deps, view), left, veto).0 == Yes
    ensures (forall i | 0 <= i < |deps| && deps[i].kind != Use :: IsUp(view, deps[i].target.value)) <==>
            (forall i | 0 <= i < Min(left, |deps|) && deps[i].kind != Use :: IsUp(view, deps[i].target.value))
  {
    var sts := StartStatuses(deps, view);
    CallIsYes(sts, left, veto);
    forall i | Min(left, |deps|) <= i < |deps| && deps[i].kind != Use ensures IsUp(view, deps[i].target.value) {
      assert !sts[i].Halt? && sts[i] == StartStatus(deps[i], view);
    }
  }

  // ------------------------------------------------------------- the checks in place

  /** What a halted start check does before it returns. */
  datatype Act = Nothing | MarkReqNotFound | StartDep(n: Name)

  function HaltAct(e: Entry, view: View): (r: Act)
    requires Relevant(e)
  {
    if e.target.value !in view then if e.kind == Require then MarkReqNotFound else Nothing
    else if view[e.target.value] == Down then StartDep(e.target.value)
    else Nothing
  }

  /** The first dependency past the cache that halts the check decides. */
  function StartAct(deps: seq<Entry>, cache: nat, view: View): (r: Act)
    requires forall i | 0 <= i < |deps| :: Relevant(deps[i])
  {
    var h := FirstHalt(StartStatuses(deps, view), Min(cache, |deps|));
    if h < |deps| then HaltAct(deps[h], view) else Nothing
  }

  lemma ActsAtHalt(deps: seq<Entry>, cache: nat, view: View, h: nat)
    requires (forall i | 0 <= i < |deps| :: Relevant(deps[i])) && Min(cache, |deps|) <= h <= |deps|
    requires var sts := StartStatuses(deps, view);
             (forall j | cache <= j < h :: !sts[j].Halt?) && (h < |deps| ==> sts[h].Halt?)
    ensures StartAct(deps, cache, view) == if h < |deps| then HaltAct(deps[h], view) else Nothing
  {
    FirstHaltAfter(StartStatuses(deps, view), Min(cache, |deps|), h);
  }

  // ------------------------------------------------------- the verdicts, written out

  /** A dependency that lets the check go on: up, or used and not registered. */
  predicate Satisfied(e: Entry, view: View)
    requires Relevant(e)
  {
    if e.target.value in view then view[e.target.value] == Up else e.kind == Use
  }

  /** One that ends it for good: failed, or required and not registered. */
  predicate Hopeless(e: Entry, view: View)
    requires Relevant(e)
  {
    if e.target.value in view then view[e.target.value] == Failed else e.kind == Require
  }

  /** Entry `i` is the first past the cache that is not satisfied. */
  predicate FirstOpen(deps: seq<Entry>, cache: nat, view: View, i: nat)
    requires forall j | 0 <= j < |deps| :: Relevant(deps[j])
  {
    && cache <= i < |deps| && !Satisfied(deps[i], view)
    && forall j | cache <= j < i :: Satisfied(deps[j], view)
  }

  lemma HaltsUnlessSatisfied(deps: seq<Entry>, view: View, i: nat)
    requires (forall j | 0 <= j < |deps| :: Relevant(deps[j])) && i < |deps|
    ensures var st := StartStatuses(deps, view)[i];
            && (st.Halt? <==> !Satisfied(deps[i], view))
            && (st == Halt(Never) <==> Hopeless(deps[i], view))
  {
  }

  /** The start check fails for good if and only if the first dependency past the cache that
      is not satisfied is hopeless; it says yes if and only if there is none and no module
      objects. */
  lemma StartVerdict(deps: seq<Entry>, cache: nat, view: View, veto: bool)
    requires forall j | 0 <= j < |deps| :: Relevant(deps[j])
    ensures var v := Call(StartStatuses(deps, view), cache, veto).0;
            && (v == Never <==> exists i | 0 <= i < |deps| :: FirstOpen(deps, cache, view, i) && Hopeless(deps[i], view))
            && (v == Yes <==> !veto && forall i | Min(cache, |deps|) <= i < |deps| :: Satisfied(deps[i], view))
  {
    var sts := StartStatuses(deps, view);
    forall i | 0 <= i < |deps|
      ensures (sts[i].Halt? <==> !Satisfied(deps[i], view)) && (sts[i] == Halt(Never) <==> Hopeless(deps[i], view))
    {
      HaltsUnlessSatisfied(deps, view, i);
    }
    WalkAnswer(sts, 0, cache);
    CallIsYes(sts, cache, veto);
    var h := FirstHalt(sts, Min(cache, |deps|));
    if h < |deps| { assert FirstOpen(deps, cache, view, h); }
    forall i | 0 <= i < |deps| && FirstOpen(deps, cache, view, i) ensures i == h {
      assert !(h < i) && !(i < h);
    }
  }

  /** Before it returns, the check starts the first dependency that is not satisfied if that is
      down, and marks the service if that is required and not registered; and nothing else. */
  lemma StartActs(deps: seq<Entry>, cache: nat, view: View)
    requires forall j | 0 <= j < |deps| :: Relevant(deps[j])
    ensures var act := StartAct(deps, cache, view);
            && (forall n :: act == StartDep(n) <==>
                  exists i | 0 <= i < |deps| :: FirstOpen(deps, cache, view, i) && deps[i].target == Some(n) &&
                                                n in view && view[n] == Down)
            && (act == MarkReqNotFound <==>
                  exists i | 0 <= i < |deps| :: FirstOpen(deps, cache, view, i) && deps[i].kind == Require &&
                                                deps[i].target.value !in view)
  {
    var sts := StartStatuses(deps, view);
    forall i | 0 <= i < |deps| ensures sts[i].Halt? <==> !Satisfied(deps[i], view) {
      HaltsUnlessSatisfied(deps, view, i);
    }
    var h := FirstHalt(sts, Min(cache, |deps|));
    if h < |deps| { assert FirstOpen(deps, cache, view, h); }
    forall i | 0 <= i < |deps| && FirstOpen(deps, cache, view, i) ensures i == h {
      assert !(h < i) && !(i < h);
    }
  }

  /** The stop check says yes if and only if no module objects and every service past the cache
      that depends on this one is down, failed, or waits for its start dependencies. */
  lemma StopVerdict(d: Dependents, cache: nat, view: map<Name, Seen>, veto: bool)
    requires Covers(d, view)
    ensures var v := Call(StopStatuses(d, view), cache, veto).0;
            && v != Never
            && (v == Yes <==> !veto && forall i | Min(cache, |d.db|) <= i < |d.db| && d.db[i] != d.self && d.db[i] in d.direct ::
                  || view[d.db[i]].rough == Down || view[d.db[i]].rough == Failed
                  || (view[d.db[i]].rough == Starting && view[d.db[i]].waitsForStart))
  {
    var sts := StopStatuses(d, view);
    CallIsYes(sts, cache, veto);
    WalkAnswer(sts, 0, cache);
    forall i | 0 <= i < |d.db|
      ensures sts[i].Halt? <==>
              (d.db[i] != d.self && d.db[i] in d.direct && view[d.db[i]].rough != Down &&
               view[d.db[i]].rough != Failed && !(view[d.db[i]].rough == Starting && view[d.db[i]].waitsForStart))
    {
      assert sts[i] == StopStatus(d, i, view);
    }
  }

  class Service {
    var dependCache: nat

    constructor () ensures dependCache == 0 { dependCache := 0; }

    /** The branches on one dependency entry. */
    static method Consider(e: Entry, view: View) returns (st: Status, act: Act)
      requires Relevant(e)
      ensures st == StartStatus(e, view)
      ensures act == if st.Halt? then HaltAct(e, view) else Nothing
    {
      if e.target.value !in view {
        if e.kind == Use { return Skip, Nothing; }
        if e.kind == Require { return Halt(Never), MarkReqNotFound; }
        return Halt(NotYet), Nothing;
      }
      match view[e.target.value] {
        case Starting => return Halt(NotYet), Nothing;
        case Failed => return Halt(Never), Nothing;
        case New => return Halt(NotYet), Nothing;
        case Down => return Halt(NotYet), StartDep(e.target.value);
        case Up => return Pass, Nothing;
        case _ => return Halt(NotYet), Nothing;
      }
    }

    /** initng_depend_start_dep_met. */
    method StartDepMet(entries: seq<Entry>, view: View, veto: bool) returns (v: Verdict, act: Act)
      modifies this
      ensures (v, dependCache) == Call(StartStatuses(Deps(entries), view), old(dependCache), veto)
      ensures act == StartAct(Deps(entries), old(dependCache), view)
    {
      ghost var sts := StartStatuses(Deps(entries), view);
      var i, count := 0, 0;
      assert entries[..|entries|] == entries;
      while i < |entries|
        invariant 0 <= i <= |entries| && count == |Deps(entries[..i])| <= |sts|
        invariant old(dependCache) == dependCache || old(dependCache) < dependCache <= count
        invariant forall j | old(dependCache) <= j < count :: !sts[j].Halt?
        invariant Walk(sts, count, dependCache) == Walk(sts, 0, old(dependCache))
      {
        var e := entries[i];
        DepsNext(entries, i);
        i := i + 1;
        if !Relevant(e) { continue; }
        count := count + 1;
        if dependCache >= count { continue; }
        var st;
        st, act := Consider(e, view);
        assert sts[count - 1] == st;
        match st {
          case Skip =>
          case Pass => dependCache := count;
          case Halt(verdict) =>
            ActsAtHalt(Deps(entries), old(dependCache), view, count - 1);
            return verdict, act;
        }
      }
      ActsAtHalt(Deps(entries), old(dependCache), view, |sts|);
      if veto { return NotYet, Nothing; }
      dependCache := 0;
      return Yes, Nothing;
    }

    /** initng_depend_stop_dep_met. */
    method StopDepMet(d: Dependents, view: map<Name, Seen>, veto: bool) returns (v: Verdict)
      requires Covers(d, view)
      modifies this
      ensures (v, dependCache) == Call(StopStatuses(d, view), old(dependCache), veto)
    {
      ghost var sts := StopStatuses(d, view);
      var count := 0;
      while count < |d.db|
        invariant 0 <= count <= |d.db| && dependCache >= count
        invariant Walk(sts, count, dependCache) == Walk(sts, 0, old(dependCache))
      {
        var x := d.db[count];
        assert sts[count] == StopStatus(d, count, view);
        count := count + 1;
        if dependCache >= count { continue; }
        dependCache := dependCache + 1;
        if x == d.self { continue; }
        if x !in d.direct { continue; }
        match view[x].rough {
          case Down => continue;
          case Failed => continue;
          case Starting => if view[x].waitsForStart { continue; }
          case _ =>
        }
        dependCache := dependCache - 1;
        return NotYet;
      }
      if veto { return NotYet; }
      dependCache := 0;
      return Yes;
    }
  }

  /** One more entry adds itself to the dependencies or nothing. */
  lemma DepsNext(entries: seq<Entry>, i: nat)
    requires i < |entries|
    ensures var c := |Deps(entries[..i])|;
            && |Deps(entries[..i + 1])| == (if Relevant(entries[i]) then c + 1 else c) <= |Deps(entries)|
            && (Relevant(entries[i]) ==> Deps(entries)[c] == entries[i])
  {
    assert entries[..i + 1][..i] == entries[..i];
    DepsPrefix(entries, i + 1);
  }

  lemma {:induction false} DepsPrefix(entries: seq<Entry>, i: nat)
    requires i <= |entries|
    ensures |Deps(entries[..i])| <= |Deps(entries)|
    ensures Deps(entries[..i]) == Deps(entries)[..|Deps(entries[..i])|]
    decreases |entries| - i
  {
    if i == |entries| {
      assert entries[..i] == entries;
    } else {
      DepsPrefix(entries, i + 1);
      assert entries[..i + 1][..i] == entries[..i];
    }
  }
}
