/**
  Starting a service and, first, everything it requires or needs: the mutual
  recursion of initng_handler_start_service and initng_depend_start_deps over the
  dependency graph, for services of the daemon type.

  `Start` and `WalkDeps` are the recursion as functions of the whole world; they
  also return the services they marked, in call order.  The class in module ServiceDb
  does the same in place.
 */
module StartService {
  import opened Basics
  import opened Entries
  import opened ServiceState

  /** What a start reads of a service besides its state. */
  datatype Info = Info(typed: bool, restarting: bool, entries: seq<Entry>)

  datatype World = World(y: Sys<Name>, info: map<Name, Info>, starting: bool)

  const START_MARKED := State(1, Starting, true)
  const RUNNING := State(2, Up, false)
  const REQ_NOT_FOUND := State(3, Failed, false)
  const WAITING_FOR_STOP_DEP := State(4, Stopping, false)

  predicate Valid(w: World) {
    w.info.Keys == w.y.svc.Keys
  }

  predicate IsDep(e: Entry) {
    (e.kind == Require || e.kind == Need) && e.target.Some?
  }

  /** The graph of required and needed services has no cycle: ranks fall along it. */
  predicate Ranked(info: map<Name, Info>, rank: map<Name, nat>) {
    && info.Keys <= rank.Keys
    && forall s, i | s in info && 0 <= i < |info[s].entries| ::
         Falls(info, rank, s, info[s].entries[i])
  }

  predicate Falls(info: map<Name, Info>, rank: map<Name, nat>, s: Name, e: Entry)
    requires s in info && info.Keys <= rank.Keys
  {
    IsDep(e) && e.target.value in info ==> rank[e.target.value] < rank[s]
  }

  function RoughOf(w: World, s: Name): (r: Rough)
    requires s in w.y.svc
  {
    w.y.svc[s].current.rough
  }

  // ------------------------------------------------------------- the recursion

  /** start_DAEMON: a daemon that still waits for its dependents to stop is simply
      running again. */
  function StartMark(st: State): (r: State) {
    if st == WAITING_FOR_STOP_DEP then RUNNING else START_MARKED
  }

  /** What start_DAEMON answers; it does not look at the mark that resumes a daemon. */
  predicate DaemonAnswer(y: Sys<Name>, s: Name)
    requires s in y.svc
  {
    y.svc[s].current == WAITING_FOR_STOP_DEP || DoMark(y, s, START_MARKED).1
  }

  function MarkIn(w: World, s: Name, st: State): (r: World)
    requires s in w.y.svc
    ensures r.y.svc.Keys == w.y.svc.Keys && r.info == w.info && r.starting == w.starting
  {
    w.(y := DoMark(w.y, s, st).0)
  }

  /** The gate of start_service: anything but a stopping or stopped, typed,
      non-restarting service in a starting system is left alone. */
  predicate Gate(w: World, s: Name)
    requires Valid(w) && s in w.y.svc
  {
    && w.info[s].typed && w.starting && !w.info[s].restarting
    && (RoughOf(w, s) == Down || RoughOf(w, s) == Stopping)
  }

  /** What the gate answers when it stays shut. */
  predicate ShutAnswer(w: World, s: Name)
    requires Valid(w) && s in w.y.svc
  {
    && w.info[s].typed && w.starting && !w.info[s].restarting
    && RoughOf(w, s) in {Starting, Waiting, Up, New}
  }

  datatype Outcome = Outcome(w: World, ok: bool, log: seq<Name>)

  ghost function Start(w: World, s: Name, rank: map<Name, nat>): (r: Outcome)
    requires Valid(w) && Ranked(w.info, rank) && s in w.y.svc
    ensures Valid(r.w) && r.w.info == w.info && r.w.y.svc.Keys == w.y.svc.Keys
    decreases rank[s], 1, 0
  {
    if !Gate(w, s) then Outcome(w, ShutAnswer(w, s), [])
    else
      var d := WalkDeps(w, s, 0, rank);
      if !d.ok then Outcome(MarkIn(d.w, s, REQ_NOT_FOUND), false, d.log + [s])
      else
        Outcome(MarkIn(d.w, s, StartMark(d.w.y.svc[s].current)), DaemonAnswer(d.w.y, s), d.log + [s])
  }

  /** The loop of start_deps from entry `i` on; `ok` is false when it met a
      required service that is not registered. */
  ghost function WalkDeps(w: World, s: Name, i: nat, rank: map<Name, nat>): (r: Outcome)
    requires Valid(w) && Ranked(w.info, rank) && s in w.y.svc && i <= |w.info[s].entries|
    ensures Valid(r.w) && r.w.info == w.info && r.w.y.svc.Keys == w.y.svc.Keys
    decreases rank[s], 0, |w.info[s].entries| - i
  {
    if i == |w.info[s].entries| then Outcome(w, true, [])
    else
      var e := w.info[s].entries[i];
      if !IsDep(e) then WalkDeps(w, s, i + 1, rank)
      else if e.target.value !in w.y.svc then
        if e.kind == Need then WalkDeps(w, s, i + 1, rank) else Outcome(w, false, [])
      else if RoughOf(w, e.target.value) != Down then WalkDeps(w, s, i + 1, rank)
      else
        assert Falls(w.info, rank, s, e);
        var a := Start(w, e.target.value, rank);
        var b := WalkDeps(a.w, s, i + 1, rank);
        Outcome(b.w, b.ok, a.log + b.log)
  }

  // ----------------------------------------------- the specification of a start

  /** The walk stops at the first required service that is not registered. */
  predicate Blocks(info: map<Name, Info>, e: Entry) {
    IsDep(e) && e.kind == Require && e.target.value !in info
  }

  predicate HasBlock(info: map<Name, Info>, s: Name)
    requires s in info
  {
    exists i | 0 <= i < |info[s].entries| :: Blocks(info, info[s].entries[i])
  }

  /** `t` is a registered dependency of `s` that the walk comes to. */
  predicate Edge(info: map<Name, Info>, s: Name, t: Name)
    requires s in info
  {
    t in info && exists i | 0 <= i < |info[s].entries| :: EdgeAt(info, s, t, i)
  }

  predicate EdgeAt(info: map<Name, Info>, s: Name, t: Name, i: nat)
    requires s in info && i < |info[s].entries|
  {
    && IsDep(info[s].entries[i]) && info[s].entries[i].target.value == t
    && NoBlock(info, s, i)
  }

  /** Nothing stops the walk before entry `i`. */
  predicate NoBlock(info: map<Name, Info>, s: Name, i: nat)
    requires s in info && i <= |info[s].entries|
  {
    forall j | 0 <= j < i :: !Blocks(info, info[s].entries[j])
  }

  /** A service that a start of one of its dependents will start. */
  predicate Open(w: World, t: Name)
    requires Valid(w)
  {
    t in w.y.svc && Gate(w, t) && RoughOf(w, t) == Down
  }

  /** The state a started service is left in. */
  function Target(w: World, t: Name): (r: State)
    requires Valid(w) && t in w.y.svc
  {
    if HasBlock(w.info, t) then REQ_NOT_FOUND else StartMark(w.y.svc[t].current)
  }

  /** A path of dependencies from `s`, every service after `s` being open. */
  predicate Path(w: World, p: seq<Name>)
    requires Valid(w)
  {
    && |p| > 0 && p[0] in w.y.svc
    && (forall i | 0 < i < |p| :: Open(w, p[i]))
    && (forall i | 0 <= i < |p| - 1 :: p[i] in w.info && Edge(w.info, p[i], p[i + 1]))
  }

  ghost predicate Reaches(w: World, s: Name, t: Name)
    requires Valid(w)
  {
    exists p :: Path(w, p) && p[0] == s && p[|p| - 1] == t
  }

  predicate Unlocked(w: World) {
    forall k | k in w.y.svc :: w.y.svc[k].lock == 0 && w.y.svc[k].next.None?
  }

  predicate SameFrame(w: World, v: World) {
    v.info == w.info && v.y.svc.Keys == w.y.svc.Keys && v.starting == w.starting
  }

  /** The interrupt list after the services of `log` committed one by one. */
  function EnqueueAll(q: seq<Name>, log: seq<Name>): (r: seq<Name>) {
    if log == [] then q
    else Enqueue(EnqueueAll(q, log[..|log| - 1]), log[|log| - 1])
  }

  lemma {:induction false} EnqueueAllConcat(q: seq<Name>, a: seq<Name>, b: seq<Name>)
    ensures EnqueueAll(q, a + b) == EnqueueAll(EnqueueAll(q, a), b)
    decreases |b|
  {
    if b == [] {
      assert a + b == a;
    } else {
      var n := |b| - 1;
      assert (a + b)[..|a + b| - 1] == a + b[..n];
      EnqueueAllConcat(q, a, b[..n]);
    }
  }

  /** `v` is `w` with the services of `log` started, in that order, each after all
      its open dependencies, and nothing else changed. */
  ghost predicate Started(w: World, v: World, log: seq<Name>)
    requires Valid(w)
  {
    && SameFrame(w, v) && Unlocked(v) && Distinct(log)
    && v.y.queue == EnqueueAll(w.y.queue, log)
    && (forall t | t in w.y.svc && t !in log :: v.y.svc[t] == w.y.svc[t])
    && (forall j | 0 <= j < |log| ::
          log[j] in w.y.svc && Gate(w, log[j]) && v.y.svc[log[j]].current == Target(w, log[j]))
    && Ordered(w, log)
  }

  /** Every service comes after all its open dependencies. */
  ghost predicate Ordered(w: World, log: seq<Name>)
    requires Valid(w)
  {
    forall j, t | 0 <= j < |log| && DepOf(w, log[j], t) :: Before(log, t, j)
  }

  predicate Before(log: seq<Name>, t: Name, j: nat) {
    exists i | 0 <= i < |log| && i < j :: log[i] == t
  }

  /** `t` is an open dependency of `s`. */
  predicate DepOf(w: World, s: Name, t: Name)
    requires Valid(w)
  {
    s in w.info && Edge(w.info, s, t) && Open(w, t)
  }

  /** Marking an unlocked service with another state commits at once. */
  lemma MarkCommits(w: World, s: Name, st: State)
    requires Valid(w) && Unlocked(w) && s in w.y.svc && w.y.svc[s].current != st
    ensures var v := MarkIn(w, s, st);
            && Valid(v) && SameFrame(w, v) && Unlocked(v)
            && v.y.svc[s].current == st && v.y.queue == Enqueue(w.y.queue, s)
            && forall t | t in w.y.svc && t != s :: v.y.svc[t] == w.y.svc[t]
  {
    MarkUnlockedCommits(w.y, s, st);
  }

  lemma StartedFrame(w: World, v: World, log: seq<Name>, t: Name)
    requires Valid(w) && Started(w, v, log) && t in w.y.svc
    ensures Valid(v)
    ensures Gate(v, t) <==> Gate(w, t) && t !in log
    ensures Open(v, t) <==> Open(w, t) && t !in log
    ensures t !in log ==> Target(v, t) == Target(w, t)
  {
    if t in log {
      var j :| 0 <= j < |log| && log[j] == t;
      assert v.y.svc[t].current == Target(w, t);
    }
  }

  lemma StartedDep(w: World, v: World, log: seq<Name>, s: Name, t: Name)
    requires Valid(w) && Started(w, v, log)
    ensures Valid(v)
    ensures DepOf(v, s, t) <==> DepOf(w, s, t) && t !in log
  {
    if s in w.info && Edge(w.info, s, t) { StartedFrame(w, v, log, t); }
  }

  lemma StartedTrans(w: World, v: World, u: World, a: seq<Name>, b: seq<Name>)
    requires Valid(w) && Started(w, v, a)
    requires Valid(v) && Started(v, u, b)
    ensures Started(w, u, a + b)
  {
    var log := a + b;
    forall j | 0 <= j < |b| ensures Gate(w, b[j]) && b[j] !in a && Target(w, b[j]) == Target(v, b[j]) {
      StartedFrame(w, v, a, b[j]);
    }
    forall t | t in w.y.svc && t !in log ensures u.y.svc[t] == w.y.svc[t] {
      assert t !in a && t !in b by { StartedMember(a, b, t); }
    }
    forall j | 0 <= j < |log|
      ensures log[j] in w.y.svc && Gate(w, log[j]) && u.y.svc[log[j]].current == Target(w, log[j])
    {
      if j < |a| {
        assert log[j] == a[j];
        assert a[j] !in b;
        assert v.y.svc[a[j]].current == Target(w, a[j]);
      } else { assert log[j] == b[j - |a|]; }
    }
    OrderedConcat(w, v, u, a, b);
    DistinctConcat(a, b);
    EnqueueAllConcat(w.y.queue, a, b);
  }

  lemma StartedMember(a: seq<Name>, b: seq<Name>, t: Name)
    ensures t in a + b <==> t in a || t in b
  {
  }

  lemma DistinctConcat(a: seq<Name>, b: seq<Name>)
    requires Distinct(a) && Distinct(b) && forall j | 0 <= j < |b| :: b[j] !in a
    ensures Distinct(a + b)
  {
    forall i, j | 0 <= i < j < |a + b| ensures (a + b)[i] != (a + b)[j] {
      if i < |a| <= j { assert (a + b)[j] == b[j - |a|]; assert (a + b)[i] == a[i]; }
    }
  }

  lemma OrderedConcat(w: World, v: World, u: World, a: seq<Name>, b: seq<Name>)
    requires Valid(w) && Started(w, v, a)
    requires Valid(v) && Ordered(v, b)
    ensures Ordered(w, a + b)
  {
    var l := a + b;
    forall j, t | 0 <= j < |l| && DepOf(w, l[j], t) ensures Before(l, t, j) {
      if j < |a| {
        assert l[j] == a[j] && Before(a, t, j);
        var i :| 0 <= i < j && a[i] == t;
        assert l[i] == t;
      } else if t in a {
        var i :| 0 <= i < |a| && a[i] == t;
        assert l[i] == t;
      } else {
        StartedDep(w, v, a, b[j - |a|], t);
        assert Before(b, t, j - |a|);
        var i :| 0 <= i < j - |a| && b[i] == t;
        assert l[|a| + i] == t;
      }
    }
  }

  lemma OrderedLast(w: World, log: seq<Name>, s: Name)
    requires Valid(w) && Ordered(w, log) && forall t | DepOf(w, s, t) :: t in log
    ensures Ordered(w, log + [s])
  {
    var l := log + [s];
    forall j, t | 0 <= j < |l| && DepOf(w, l[j], t) ensures Before(l, t, j) {
      if j < |log| { assert l[j] == log[j] && Before(log, t, j); }
      assert t in log;
      var i :| 0 <= i < |log| && i < j && log[i] == t;
      assert l[i] == t;
    }
  }

  /** Appending a service whose open dependencies are all started already. */
  lemma StartedLast(w: World, v: World, log: seq<Name>, s: Name)
    requires Valid(w) && Started(w, v, log) && s in w.y.svc && Gate(w, s) && s !in log
    requires forall t | DepOf(w, s, t) :: t in log
    ensures Valid(v) && v.y.svc[s] == w.y.svc[s]
    ensures Started(w, MarkIn(v, s, Target(w, s)), log + [s])
  {
    assert v.y.svc[s].current != Target(w, s);
    MarkCommits(v, s, Target(w, s));
    var u := MarkIn(v, s, Target(w, s));
    var l2 := log + [s];
    assert l2[..|l2| - 1] == log;
    forall t | t in w.y.svc && t !in l2 ensures u.y.svc[t] == w.y.svc[t] {
      StartedMember(log, [s], t);
    }
    forall j | 0 <= j < |l2|
      ensures l2[j] in w.y.svc && Gate(w, l2[j]) && u.y.svc[l2[j]].current == Target(w, l2[j])
    {
      if j < |log| { assert l2[j] == log[j]; }
    }
    OrderedLast(w, log, s);
    DistinctConcat(log, [s]);
  }

  // ------------------------------------------------------------- reachability

  lemma ReachSelf(w: World, s: Name)
    requires Valid(w) && s in w.y.svc
    ensures Reaches(w, s, s)
  {
    var p := [s];
    assert Path(w, p) && p[0] == s && p[|p| - 1] == s;
  }

  lemma ReachCons(w: World, s: Name, x: Name, t: Name)
    requires Valid(w) && DepOf(w, s, x) && Reaches(w, x, t)
    ensures Reaches(w, s, t)
  {
    var p :| Path(w, p) && p[0] == x && p[|p| - 1] == t;
    var q := [s] + p;
    forall i | 0 < i < |q| ensures Open(w, q[i]) { assert q[i] == p[i - 1]; }
    forall i | 0 <= i < |q| - 1 ensures q[i] in w.info && Edge(w.info, q[i], q[i + 1]) {
      if i > 0 { assert q[i] == p[i - 1] && q[i + 1] == p[i]; }
    }
    assert Path(w, q) && q[0] == s && q[|q| - 1] == t;
  }

  lemma ReachBefore(w: World, v: World, log: seq<Name>, s: Name, t: Name)
    requires Valid(w) && Started(w, v, log) && Valid(v) && Reaches(v, s, t)
    ensures Reaches(w, s, t)
  {
    var p :| Path(v, p) && p[0] == s && p[|p| - 1] == t;
    forall i | 0 < i < |p| ensures Open(w, p[i]) { StartedFrame(w, v, log, p[i]); }
    assert Path(w, p);
  }

  /** A started set that contains `s` contains all that `s` reaches. */
  lemma {:induction false} StartedClosed(w: World, v: World, log: seq<Name>, p: seq<Name>)
    requires Valid(w) && Started(w, v, log) && Path(w, p) && p[0] in log
    ensures p[|p| - 1] in log
    decreases |p|
  {
    if |p| > 1 {
      var q := p[..|p| - 1];
      assert Path(w, q);
      StartedClosed(w, v, log, q);
      var x := q[|q| - 1];
      var j :| 0 <= j < |log| && log[j] == x;
      assert x == p[|p| - 2] && Edge(w.info, x, p[|p| - 1]);
      assert DepOf(w, log[j], p[|p| - 1]);
    }
  }

  // ------------------------------------------------------------- the theorem

  /** Every log entry is reached from `s` and ranks below `bound`. */
  ghost predicate Within(w: World, s: Name, log: seq<Name>, rank: map<Name, nat>, bound: nat)
    requires Valid(w) && w.info.Keys <= rank.Keys
  {
    forall j | 0 <= j < |log| ::
      log[j] in rank && rank[log[j]] < bound && Reaches(w, s, log[j])
  }

  /** What the walk from entry `i` on achieves. */
  ghost predicate Walked(w: World, s: Name, i: nat, d: Outcome, rank: map<Name, nat>)
    requires Valid(w) && Ranked(w.info, rank) && s in w.y.svc && i <= |w.info[s].entries|
  {
    && Started(w, d.w, d.log)
    && Within(w, s, d.log, rank, rank[s])
    && (d.ok <==> forall j | i <= j < |w.info[s].entries| :: !Blocks(w.info, w.info[s].entries[j]))
    && (forall j, t | i <= j < |w.info[s].entries| && EdgeAt(w.info, s, t, j) && Open(w, t) :: t in d.log)
  }

  lemma {:induction false} StartSpec(w: World, s: Name, rank: map<Name, nat>)
    requires Valid(w) && Unlocked(w) && Ranked(w.info, rank) && s in w.y.svc && Gate(w, s)
    ensures var r := Start(w, s, rank);
            && Started(w, r.w, r.log)
            && Within(w, s, r.log, rank, rank[s] + 1)
            && s in r.log
            && r.ok == !HasBlock(w.info, s)
    decreases rank[s], 1, 0
  {
    var d := WalkDeps(w, s, 0, rank);
    WalkSpec(w, s, 0, rank);
    assert s !in d.log;
    forall t | DepOf(w, s, t) ensures t in d.log {
      var j :| 0 <= j < |w.info[s].entries| && EdgeAt(w.info, s, t, j);
    }
    StartedLast(w, d.w, d.log, s);
    ReachSelf(w, s);
    assert (d.log + [s])[|d.log|] == s;
    WithinLast(w, s, d.log, rank);
    assert d.ok == !HasBlock(w.info, s);
    if d.ok { MarkUnlockedCommits(d.w.y, s, Target(w, s)); }
  }

  lemma WithinLast(w: World, s: Name, log: seq<Name>, rank: map<Name, nat>)
    requires Valid(w) && Ranked(w.info, rank) && s in w.y.svc
    requires Within(w, s, log, rank, rank[s]) && Reaches(w, s, s)
    ensures Within(w, s, log + [s], rank, rank[s] + 1)
  {
    var l2 := log + [s];
    forall j | 0 <= j < |l2|
      ensures l2[j] in rank && rank[l2[j]] < rank[s] + 1 && Reaches(w, s, l2[j])
    {
      if j < |log| { assert l2[j] == log[j]; }
    }
  }

  lemma {:induction false} WalkSpec(w: World, s: Name, i: nat, rank: map<Name, nat>)
    requires Valid(w) && Unlocked(w) && Ranked(w.info, rank) && s in w.y.svc && i <= |w.info[s].entries|
    requires w.starting && NoBlock(w.info, s, i)
    ensures Walked(w, s, i, WalkDeps(w, s, i, rank), rank)
    decreases rank[s], 0, |w.info[s].entries| - i
  {
    if i < |w.info[s].entries| {
      var e := w.info[s].entries[i];
      if Blocks(w.info, e) {
        WalkBlocked(w, s, i, rank);
      } else if !IsDep(e) || e.target.value !in w.y.svc || RoughOf(w, e.target.value) != Down {
        WalkSpec(w, s, i + 1, rank);
      } else {
        WalkStep(w, s, i, rank);
      }
    }
  }

  lemma WalkBlocked(w: World, s: Name, i: nat, rank: map<Name, nat>)
    requires Valid(w) && Unlocked(w) && Ranked(w.info, rank) && s in w.y.svc && i < |w.info[s].entries|
    requires Blocks(w.info, w.info[s].entries[i])
    ensures Walked(w, s, i, WalkDeps(w, s, i, rank), rank)
  {
    assert WalkDeps(w, s, i, rank) == Outcome(w, false, []);
    assert forall j, t | i <= j < |w.info[s].entries| && t in w.info :: !EdgeAt(w.info, s, t, j);
  }

  predicate AtDownDep(w: World, s: Name, i: nat)
    requires Valid(w) && s in w.y.svc && i < |w.info[s].entries|
  {
    var e := w.info[s].entries[i];
    && IsDep(e) && e.target.value in w.y.svc && RoughOf(w, e.target.value) == Down
    && NoBlock(w.info, s, i)
  }

  lemma {:induction false} WalkStep(w: World, s: Name, i: nat, rank: map<Name, nat>)
    requires Valid(w) && Unlocked(w) && Ranked(w.info, rank) && s in w.y.svc && i < |w.info[s].entries|
    requires w.starting && AtDownDep(w, s, i)
    ensures Walked(w, s, i, WalkDeps(w, s, i, rank), rank)
    decreases rank[s], 0, |w.info[s].entries| - i, 0
  {
    DepStarted(w, s, i, rank);
    var a := Start(w, w.info[s].entries[i].target.value, rank);
    WalkSpec(a.w, s, i + 1, rank);
    WalkJoin(w, s, i, a, WalkDeps(a.w, s, i + 1, rank), rank);
    WalkUnfold(w, s, i, rank);
  }

  lemma WalkUnfold(w: World, s: Name, i: nat, rank: map<Name, nat>)
    requires Valid(w) && Ranked(w.info, rank) && s in w.y.svc && i < |w.info[s].entries| && AtDownDep(w, s, i)
    ensures var a := Start(w, w.info[s].entries[i].target.value, rank);
            var b := WalkDeps(a.w, s, i + 1, rank);
            WalkDeps(w, s, i, rank) == Outcome(b.w, b.ok, a.log + b.log)
  {
  }

  lemma {:induction false} DepStarted(w: World, s: Name, i: nat, rank: map<Name, nat>)
    requires Valid(w) && Unlocked(w) && Ranked(w.info, rank) && s in w.y.svc && i < |w.info[s].entries|
    requires w.starting && AtDownDep(w, s, i)
    ensures var x := w.info[s].entries[i].target.value;
            var a := Start(w, x, rank);
            && Started(w, a.w, a.log) && Within(w, s, a.log, rank, rank[s])
            && (Open(w, x) ==> x in a.log)
            && a.w.info == w.info && NoBlock(w.info, s, i + 1)
    decreases rank[s], 0, 0
  {
    var x := w.info[s].entries[i].target.value;
    assert Falls(w.info, rank, s, w.info[s].entries[i]);
    if Open(w, x) {
      StartSpec(w, x, rank);
      assert EdgeAt(w.info, s, x, i);
      WithinCons(w, s, x, Start(w, x, rank).log, rank);
    } else {
      assert Start(w, x, rank) == Outcome(w, ShutAnswer(w, x), []);
    }
  }

  /** The walk's first start and the rest of the walk, put together. */
  lemma WalkJoin(w: World, s: Name, i: nat, a: Outcome, b: Outcome, rank: map<Name, nat>)
    requires Valid(w) && Ranked(w.info, rank) && s in w.y.svc && i < |w.info[s].entries|
    requires Started(w, a.w, a.log) && Within(w, s, a.log, rank, rank[s])
    requires var e := w.info[s].entries[i];
             IsDep(e) && e.target.value in w.y.svc && (Open(w, e.target.value) ==> e.target.value in a.log)
    requires Valid(a.w) && Walked(a.w, s, i + 1, b, rank)
    ensures Walked(w, s, i, Outcome(b.w, b.ok, a.log + b.log), rank)
  {
    StartedTrans(w, a.w, b.w, a.log, b.log);
    WithinJoin(w, a.w, s, a.log, b.log, rank);
    forall j, t | i <= j < |w.info[s].entries| && EdgeAt(w.info, s, t, j) && Open(w, t)
      ensures t in a.log + b.log
    {
      if t !in a.log { StartedFrame(w, a.w, a.log, t); }
    }
  }

  lemma WithinCons(w: World, s: Name, x: Name, log: seq<Name>, rank: map<Name, nat>)
    requires Valid(w) && Ranked(w.info, rank) && DepOf(w, s, x) && rank[x] < rank[s]
    requires Within(w, x, log, rank, rank[x] + 1)
    ensures Within(w, s, log, rank, rank[s])
  {
    forall j | 0 <= j < |log| ensures Reaches(w, s, log[j]) { ReachCons(w, s, x, log[j]); }
  }

  lemma WithinJoin(w: World, v: World, s: Name, a: seq<Name>, b: seq<Name>, rank: map<Name, nat>)
    requires Valid(w) && Valid(v) && Started(w, v, a) && Ranked(w.info, rank) && s in w.info
    requires Within(w, s, a, rank, rank[s]) && Within(v, s, b, rank, rank[s])
    ensures Within(w, s, a + b, rank, rank[s])
  {
    var l := a + b;
    forall j | 0 <= j < |l| ensures l[j] in rank && rank[l[j]] < rank[s] && Reaches(w, s, l[j]) {
      if j < |a| { assert l[j] == a[j]; }
      else { assert l[j] == b[j - |a|]; ReachBefore(w, v, a, s, b[j - |a|]); }
    }
  }

  /** The main result, for any graph without cycles and any service that passes the
      gate.  Exactly the services it reaches through stopped ones are started, each
      once and after all those it depends on; a service with a required dependency
      that is not registered ends as REQ_NOT_FOUND instead; the interrupt list gets
      them in that order; no other service changes in any field. */
  lemma StartReachesExactly(w: World, s: Name, rank: map<Name, nat>)
    requires Valid(w) && Unlocked(w) && Ranked(w.info, rank) && s in w.y.svc && Gate(w, s)
    ensures var r := Start(w, s, rank);
            && r.ok == !HasBlock(w.info, s)
            && Distinct(r.log)
            && (forall t | t in w.y.svc :: t in r.log <==> Reaches(w, s, t))
            && (forall t | t in w.y.svc && t in r.log :: r.w.y.svc[t].current == Target(w, t))
            && (forall t | t in w.y.svc && t !in r.log :: r.w.y.svc[t] == w.y.svc[t])
            && Ordered(w, r.log)
            && r.w.y.queue == EnqueueAll(w.y.queue, r.log)
  {
    StartSpec(w, s, rank);
    var r := Start(w, s, rank);
    forall t | t in w.y.svc ensures t in r.log <==> Reaches(w, s, t) {
      if Reaches(w, s, t) {
        var p :| Path(w, p) && p[0] == s && p[|p| - 1] == t;
        StartedClosed(w, r.w, r.log, p);
      }
    }
  }

  // ------------------------------------------------- the states, written out

  /** What a start through an open gate leaves behind.  Every service that `s` reaches and
      that was stopped has the state of id 1, which is Starting and has an init hook, or, if
      a required service of it is missing, the failed state of id 3; so has `s`, but if it
      waited for its dependents to stop and misses nothing, it is running again, the state
      of id 2; no other service changes. */
  ghost predicate StartedRight(w: World, s: Name, v: World)
    requires Valid(w) && Valid(v) && v.info == w.info && s in w.y.svc
  {
    && (forall t | t in w.y.svc && Reaches(w, s, t) && RoughOf(w, t) == Down ::
          v.y.svc[t].current == if HasBlock(w.info, t) then State(3, Failed, false) else State(1, Starting, true))
    && v.y.svc[s].current == (if HasBlock(w.info, s) then State(3, Failed, false)
                              else if w.y.svc[s].current == State(4, Stopping, false) then State(2, Up, false)
                              else State(1, Starting, true))
    && (forall t | t in w.y.svc && !Reaches(w, s, t) :: v.y.svc[t] == w.y.svc[t])
  }

  lemma StartsRight(w: World, s: Name, rank: map<Name, nat>)
    requires Valid(w) && Unlocked(w) && Ranked(w.info, rank) && s in w.y.svc
    requires w.info[s].typed && w.starting && !w.info[s].restarting && RoughOf(w, s) in {Down, Stopping}
    ensures StartedRight(w, s, Start(w, s, rank).w)
  {
    StartReachesExactly(w, s, rank);
    ReachSelf(w, s);
  }

  /** And with the gate shut: nothing changes, and the answer is yes exactly for a service that
      is up, on its way, or new. */
  lemma StartRefused(w: World, s: Name, rank: map<Name, nat>)
    requires Valid(w) && Ranked(w.info, rank) && s in w.y.svc
    requires !w.info[s].typed || !w.starting || w.info[s].restarting || RoughOf(w, s) !in {Down, Stopping}
    ensures var r := Start(w, s, rank);
            && r.w == w
            && (r.ok <==> w.info[s].typed && w.starting && !w.info[s].restarting && RoughOf(w, s) != Failed)
  {
  }

  /** A required or needed service that is registered is a dependency, unless a required one
      before it is missing; a used one is none. */
  lemma EdgeIff(info: map<Name, Info>, s: Name, t: Name)
    requires s in info
    ensures Edge(info, s, t) <==>
            t in info &&
            exists i | 0 <= i < |info[s].entries| ::
              && (info[s].entries[i] == Entry(Require, Some(t)) || info[s].entries[i] == Entry(Need, Some(t)))
              && NoneMissing(info, info[s].entries[..i])
  {
    var es := info[s].entries;
    forall i | 0 <= i < |es|
      ensures EdgeAt(info, s, t, i) <==>
              (es[i] == Entry(Require, Some(t)) || es[i] == Entry(Need, Some(t))) && NoneMissing(info, es[..i])
    {
      MissingIff(info, es[..i]);
      assert forall j | 0 <= j < i :: es[..i][j] == es[j];
    }
  }

  /** No required service among these entries is missing. */
  predicate NoneMissing(info: map<Name, Info>, es: seq<Entry>) {
    forall e <- es :: e.kind == Require && e.target.Some? ==> e.target.value in info
  }

  lemma MissingIff(info: map<Name, Info>, es: seq<Entry>)
    ensures NoneMissing(info, es) <==> forall j | 0 <= j < |es| :: !Blocks(info, es[j])
  {
    if NoneMissing(info, es) {
      forall j | 0 <= j < |es| ensures !Blocks(info, es[j]) { assert es[j] in es; }
    }
  }

  lemma BlockIff(info: map<Name, Info>, s: Name)
    requires s in info
    ensures HasBlock(info, s) <==> !NoneMissing(info, info[s].entries)
  {
    MissingIff(info, info[s].entries);
  }
}
