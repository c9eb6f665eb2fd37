/**
  Does one service depend, perhaps through others, on another?  The search keeps
  no set of visited services; one counter shared by all its branches stops it
  after ten expansions.
 */
module DependDeep {
  import opened Basics
  import opened Entries

  /** The database: services in walk order, their data entries, and the pairs a
      module's hook declares dependent. */
  datatype Db = Db(services: seq<Name>, entries: map<Name, seq<Entry>>, hook: set<(Name, Name)>)

  const MAX_EXPANSIONS := 10

  // -------------------------------------------------------- the direct relation

  predicate Names(e: Entry, check: Name) {
    e.kind != Other && e.target == Some(check)
  }

  predicate DepOn(g: Db, s: Name, check: Name) {
    s in g.entries && exists i | 0 <= i < |g.entries[s]| :: Names(g.entries[s][i], check)
  }

  predicate Depend(g: Db, s: Name, check: Name) {
    s != check && (DepOn(g, s, check) || (s, check) in g.hook)
  }

  /** A direct dependency: another service, that an entry requires, needs or uses, or that a
      module says so of. */
  lemma DependIff(g: Db, s: Name, check: Name)
    ensures Depend(g, s, check) <==>
            s != check &&
            (|| (s, check) in g.hook
             || (s in g.entries &&
                 exists k <- [Require, Need, Use] :: Entry(k, Some(check)) in g.entries[s]))
  {
    if s in g.entries {
      forall k | k in [Require, Need, Use] && Entry(k, Some(check)) in g.entries[s] ensures DepOn(g, s, check) {
        var i :| 0 <= i < |g.entries[s]| && g.entries[s][i] == Entry(k, Some(check));
        assert Names(g.entries[s][i], check);
      }
      if DepOn(g, s, check) {
        var i :| 0 <= i < |g.entries[s]| && Names(g.entries[s][i], check);
        assert g.entries[s][i] == Entry(g.entries[s][i].kind, Some(check)) && g.entries[s][i].kind in [Require, Need, Use];
      }
    }
  }

  /** dep_on: a search of the data entries. */
  method FindDepOn(g: Db, s: Name, check: Name) returns (r: bool)
    ensures r == DepOn(g, s, check)
  {
    if s !in g.entries { return false; }
    var i := 0;
    while i < |g.entries[s]|
      invariant 0 <= i <= |g.entries[s]|
      invariant forall j | 0 <= j < i :: !Names(g.entries[s][j], check)
    {
      var e := g.entries[s][i];
      if (e.kind == Require || e.kind == Need || e.kind == Use) && e.target.Some? && e.target.value == check {
        assert Names(g.entries[s][i], check);
        return true;
      }
      i := i + 1;
    }
    return false;
  }

  method FindDepend(g: Db, s: Name, check: Name) returns (r: bool)
    ensures r == Depend(g, s, check)
  {
    if s == check { return false; }
    r := FindDepOn(g, s, check);
    if r { return true; }
    return (s, check) in g.hook;
  }

  // ---------------------------------------------------------------- the search

  /** The answer, the counter afterwards, and how many calls and how many loops
      over the database it took. */
  datatype Found = Found(yes: bool, stack: nat, calls: nat, loops: nat)

  function Left(stack: nat): (r: nat) {
    if stack < MAX_EXPANSIONS then MAX_EXPANSIONS - stack else 0
  }

  function Deep(g: Db, s: Name, check: Name, stack: nat): (r: Found)
    ensures r.stack >= stack && Left(r.stack) + r.loops <= Left(stack)
    ensures r.calls <= 1 + r.loops * |g.services|
    decreases Left(stack), 0, 0
  {
    if Depend(g, s, check) then Found(true, stack, 1, 0)
    else if stack + 1 > MAX_EXPANSIONS then Found(false, stack + 1, 1, 0)
    else
      var r := DeepFrom(g, s, check, 0, stack + 1);
      assert 1 + r.calls <= 1 + (r.loops + 1) * |g.services|;
      Found(r.yes, r.stack, 1 + r.calls, 1 + r.loops)
  }

  /** The loop over the database, from service `i` on. */
  function DeepFrom(g: Db, s: Name, check: Name, i: nat, stack: nat): (r: Found)
    requires i <= |g.services|
    ensures r.stack >= stack && Left(r.stack) + r.loops <= Left(stack)
    ensures r.calls <= |g.services| - i + r.loops * |g.services|
    decreases Left(stack), 1, |g.services| - i
  {
    if i == |g.services| then Found(false, stack, 0, 0)
    else if !Depend(g, s, g.services[i]) then DeepFrom(g, s, check, i + 1, stack)
    else
      var a := Deep(g, g.services[i], check, stack);
      if a.yes then a
      else
        var b := DeepFrom(g, s, check, i + 1, a.stack);
        assert a.calls + b.calls <= |g.services| - i + (a.loops + b.loops) * |g.services|;
        Found(b.yes, b.stack, a.calls + b.calls, a.loops + b.loops)
  }

  /** On every graph, cyclic or not: at most ten loops over the database and at
      most ten calls for each service besides the first. */
  lemma SearchIsBounded(g: Db, s: Name, check: Name)
    ensures Deep(g, s, check, 0).loops <= 10
    ensures Deep(g, s, check, 0).calls <= 1 + 10 * |g.services|
  {
    var r := Deep(g, s, check, 0);
    MulMono(r.loops, 10, |g.services|);
  }

  lemma MulMono(a: nat, b: nat, n: nat)
    requires a <= b
    ensures a * n <= b * n
  {
  }

  // ------------------------------------------------------------------- soundness

  /** A path of direct dependencies through registered services. */
  predicate DepPath(g: Db, p: seq<Name>) {
    && |p| >= 2
    && (forall i | 0 <= i < |p| - 1 :: Depend(g, p[i], p[i + 1]))
    && (forall i | 0 < i < |p| - 1 :: p[i] in g.services)
  }

  ghost predicate DependsDeep(g: Db, s: Name, check: Name) {
    exists p :: DepPath(g, p) && p[0] == s && p[|p| - 1] == check
  }

  lemma PathCons(g: Db, s: Name, x: Name, check: Name)
    requires x in g.services && Depend(g, s, x) && DependsDeep(g, x, check)
    ensures DependsDeep(g, s, check)
  {
    var p :| DepPath(g, p) && p[0] == x && p[|p| - 1] == check;
    var q := [s] + p;
    forall i | 0 <= i < |q| - 1 ensures Depend(g, q[i], q[i + 1]) {
      if i > 0 { assert q[i] == p[i - 1] && q[i + 1] == p[i]; }
    }
    forall i | 0 < i < |q| - 1 ensures q[i] in g.services { assert q[i] == p[i - 1]; }
    assert DepPath(g, q) && q[0] == s && q[|q| - 1] == check;
  }

  /** Whatever the counter: a yes means a real path. */
  lemma {:induction false} DeepIsSound(g: Db, s: Name, check: Name, stack: nat)
    ensures Deep(g, s, check, stack).yes ==> DependsDeep(g, s, check)
    decreases Left(stack), 0, 0
  {
    if Depend(g, s, check) {
      var p := [s, check];
      assert DepPath(g, p) && p[0] == s && p[|p| - 1] == check;
    } else if stack + 1 <= MAX_EXPANSIONS {
      DeepFromIsSound(g, s, check, 0, stack + 1);
    }
  }

  lemma {:induction false} DeepFromIsSound(g: Db, s: Name, check: Name, i: nat, stack: nat)
    requires i <= |g.services|
    ensures DeepFrom(g, s, check, i, stack).yes ==> DependsDeep(g, s, check)
    decreases Left(stack), 1, |g.services| - i
  {
    if i < |g.services| {
      if Depend(g, s, g.services[i]) {
        var a := Deep(g, g.services[i], check, stack);
        DeepIsSound(g, g.services[i], check, stack);
        if a.yes { PathCons(g, s, g.services[i], check); }
        else { DeepFromIsSound(g, s, check, i + 1, a.stack); }
      } else {
        DeepFromIsSound(g, s, check, i + 1, stack);
      }
    }
  }

  // ---------------------------------------------------------------- completeness

  lemma {:induction false} LoopFindsTwo(g: Db, s: Name, check: Name, i: nat, j: nat, stack: nat)
    requires i <= j < |g.services|
    requires Depend(g, s, g.services[j]) && Depend(g, g.services[j], check)
    ensures DeepFrom(g, s, check, i, stack).yes
    decreases j - i
  {
    if i < j {
      var stack' := if Depend(g, s, g.services[i]) then Deep(g, g.services[i], check, stack).stack else stack;
      LoopFindsTwo(g, s, check, i + 1, j, stack');
    }
  }

  /** A path of one or two steps is always found: the test of the last step comes
      before the counter is looked at, even when earlier branches used it up. */
  lemma ShortPathsAreFound(g: Db, s: Name, check: Name)
    requires Depend(g, s, check) ||
             exists x | x in g.services :: Depend(g, s, x) && Depend(g, x, check)
    ensures Deep(g, s, check, 0).yes
  {
    if !Depend(g, s, check) {
      var x :| x in g.services && Depend(g, s, x) && Depend(g, x, check);
      var j :| 0 <= j < |g.services| && g.services[j] == x;
      LoopFindsTwo(g, s, check, 0, j, 1);
    }
  }

  // ------------------------------------------------------- which services are called

  /** The traversal without a goal: the services it would call, and the counter after it. */
  function Calls(g: Db, s: Name, stack: nat): (r: (set<Name>, nat))
    ensures r.1 > stack && s in r.0
    decreases Left(stack), 0, 0
  {
    if stack + 1 > MAX_EXPANSIONS then ({s}, stack + 1)
    else
      var r := CallsFrom(g, s, 0, stack + 1);
      ({s} + r.0, r.1)
  }

  function CallsFrom(g: Db, s: Name, i: nat, stack: nat): (r: (set<Name>, nat))
    requires i <= |g.services|
    ensures r.1 >= stack
    decreases Left(stack), 1, |g.services| - i
  {
    if i == |g.services| then ({}, stack)
    else if !Depend(g, s, g.services[i]) then CallsFrom(g, s, i + 1, stack)
    else
      var a := Calls(g, g.services[i], stack);
      var b := CallsFrom(g, s, i + 1, a.1);
      (a.0 + b.0, b.1)
  }

  /** One of these services depends directly on `check`. */
  predicate Hits(g: Db, called: set<Name>, check: Name) {
    exists x | x in called :: Depend(g, x, check)
  }

  lemma HitsUnion(g: Db, a: set<Name>, b: set<Name>, check: Name)
    ensures Hits(g, a + b, check) <==> Hits(g, a, check) || Hits(g, b, check)
  {
    if Hits(g, a, check) { var x :| x in a && Depend(g, x, check); assert x in a + b; }
    if Hits(g, b, check) { var x :| x in b && Depend(g, x, check); assert x in a + b; }
  }

  /** On every graph, at every counter: the search says yes exactly if the goal is a direct
      dependency of a service that the traversal calls, whatever the goal is. */
  lemma {:induction false} CallsDecide(g: Db, s: Name, check: Name, stack: nat)
    ensures var r := Deep(g, s, check, stack);
            && (r.yes <==> Hits(g, Calls(g, s, stack).0, check))
            && (!r.yes ==> r.stack == Calls(g, s, stack).1)
    decreases Left(stack), 0, 0
  {
    if !Depend(g, s, check) && stack + 1 <= MAX_EXPANSIONS {
      CallsDecideFrom(g, s, check, 0, stack + 1);
      HitsUnion(g, {s}, CallsFrom(g, s, 0, stack + 1).0, check);
    }
  }

  lemma {:induction false} CallsDecideFrom(g: Db, s: Name, check: Name, i: nat, stack: nat)
    requires i <= |g.services|
    ensures var r := DeepFrom(g, s, check, i, stack);
            && (r.yes <==> Hits(g, CallsFrom(g, s, i, stack).0, check))
            && (!r.yes ==> r.stack == CallsFrom(g, s, i, stack).1)
    decreases Left(stack), 1, |g.services| - i
  {
    if i < |g.services| {
      if Depend(g, s, g.services[i]) {
        var a := Calls(g, g.services[i], stack);
        CallsDecide(g, g.services[i], check, stack);
        CallsDecideFrom(g, s, check, i + 1, a.1);
        HitsUnion(g, a.0, CallsFrom(g, s, i + 1, a.1).0, check);
      } else {
        CallsDecideFrom(g, s, check, i + 1, stack);
      }
    }
  }

  /** `x` is `s` or one of the registered services it depends on. */
  ghost predicate Reached(g: Db, s: Name, x: Name) {
    x == s || (x in g.services && DependsDeep(g, s, x))
  }

  lemma PathSnoc(g: Db, s: Name, x: Name, check: Name)
    requires Reached(g, s, x) && Depend(g, x, check)
    ensures DependsDeep(g, s, check)
  {
    if x == s {
      var p := [s, check];
      assert DepPath(g, p) && p[0] == s && p[|p| - 1] == check;
    } else {
      var p :| DepPath(g, p) && p[0] == s && p[|p| - 1] == x;
      var q := p + [check];
      forall i | 0 <= i < |q| - 1 ensures Depend(g, q[i], q[i + 1]) {
        if i < |p| - 1 { assert q[i] == p[i] && q[i + 1] == p[i + 1]; }
      }
      assert DepPath(g, q) && q[0] == s && q[|q| - 1] == check;
    }
  }

  lemma LastButOne(g: Db, s: Name, check: Name) returns (x: Name)
    requires DependsDeep(g, s, check)
    ensures Reached(g, s, x) && Depend(g, x, check)
  {
    var p :| DepPath(g, p) && p[0] == s && p[|p| - 1] == check;
    x := p[|p| - 2];
    if |p| > 2 {
      var q := p[..|p| - 1];
      assert DepPath(g, q) && q[0] == s && q[|q| - 1] == x;
    }
  }

  /** Every dependency of a service that `s` reaches is one of a service that is called. */
  ghost predicate Covered(g: Db, s: Name) {
    forall x, t | Reached(g, s, x) && Depend(g, x, t) :: Hits(g, Calls(g, s, 0).0, t)
  }

  /** The search from `s` is exact for every goal if and only if the services it calls cover
      the dependencies of all the services `s` reaches. */
  lemma ExactIffCovered(g: Db, s: Name)
    ensures (forall t :: Deep(g, s, t, 0).yes <==> DependsDeep(g, s, t)) <==> Covered(g, s)
  {
    forall t ensures (Deep(g, s, t, 0).yes ==> DependsDeep(g, s, t)) &&
                     (Deep(g, s, t, 0).yes <==> Hits(g, Calls(g, s, 0).0, t))
    {
      DeepIsSound(g, s, t, 0);
      CallsDecide(g, s, t, 0);
    }
    if forall t :: Deep(g, s, t, 0).yes <==> DependsDeep(g, s, t) {
      forall x, t | Reached(g, s, x) && Depend(g, x, t) ensures Hits(g, Calls(g, s, 0).0, t) {
        PathSnoc(g, s, x, t);
      }
    }
    if Covered(g, s) {
      forall t | DependsDeep(g, s, t) ensures Deep(g, s, t, 0).yes {
        var x := LastButOne(g, s, t);
      }
    }
  }

  // ----------------------------------------------------------- while the counter lasts

  /** A called service whose own loop ran to the end with the counter in bounds. */
  lemma {:induction false} CalledFrom(g: Db, s: Name, i: nat, j: nat, stack: nat) returns (at: nat)
    requires i <= j < |g.services| && Depend(g, s, g.services[j])
    requires CallsFrom(g, s, i, stack).1 <= MAX_EXPANSIONS
    ensures Calls(g, g.services[j], at).1 <= MAX_EXPANSIONS
    ensures Calls(g, g.services[j], at).0 <= CallsFrom(g, s, i, stack).0
    decreases j - i
  {
    if i == j {
      at := stack;
    } else {
      at := CalledFrom(g, s, i + 1, j, if Depend(g, s, g.services[i]) then Calls(g, g.services[i], stack).1 else stack);
    }
  }

  lemma {:induction false} PathIsCalled(g: Db, p: seq<Name>, stack: nat)
    requires DepPath(g, p) && Calls(g, p[0], stack).1 <= MAX_EXPANSIONS
    ensures p[|p| - 2] in Calls(g, p[0], stack).0
    decreases |p|
  {
    if |p| > 2 {
      var j :| 0 <= j < |g.services| && g.services[j] == p[1];
      var at := CalledFrom(g, p[0], 0, j, stack + 1);
      var q := p[1..];
      assert forall i | 0 <= i < |q| :: q[i] == p[i + 1];
      PathIsCalled(g, q, at);
    }
  }

  /** If the traversal ends with the counter at ten or below, the search is exact for every goal. */
  lemma ExactWithinBudget(g: Db, s: Name, check: Name)
    requires Calls(g, s, 0).1 <= MAX_EXPANSIONS
    ensures Deep(g, s, check, 0).yes <==> DependsDeep(g, s, check)
  {
    DeepIsSound(g, s, check, 0);
    CallsDecide(g, s, check, 0);
    if DependsDeep(g, s, check) {
      var p :| DepPath(g, p) && p[0] == s && p[|p| - 1] == check;
      PathIsCalled(g, p, 0);
      assert Depend(g, p[|p| - 2], p[|p| - 2 + 1]);
    }
  }

  // ------------------------------------------- where the budget loses dependencies

  /** A database that is one chain: each service needs exactly the next one. */
  predicate Chain(g: Db) {
    && (forall i, j | 0 <= i < j < |g.services| :: g.services[i] != g.services[j])
    && (forall i, j | 0 <= i < |g.services| && 0 <= j < |g.services| ::
          Depend(g, g.services[i], g.services[j]) <==> j == i + 1)
  }

  lemma {:induction false} ChainLoop(g: Db, k: nat, at: nat, i: nat, stack: nat)
    requires Chain(g) && at < k < |g.services| && i <= |g.services|
    ensures var r := DeepFrom(g, g.services[at], g.services[k], i, stack);
            r.yes <==> i <= at + 1 && Deep(g, g.services[at + 1], g.services[k], stack).yes
    decreases |g.services| - i
  {
    if i < |g.services| {
      if i == at + 1 {
        var a := Deep(g, g.services[i], g.services[k], stack);
        if !a.yes { ChainLoop(g, k, at, i + 1, a.stack); }
      } else {
        assert !Depend(g, g.services[at], g.services[i]);
        ChainLoop(g, k, at, i + 1, stack);
      }
    }
  }

  lemma {:induction false} ChainDeep(g: Db, k: nat, at: nat, stack: nat)
    requires Chain(g) && at < k < |g.services| && stack <= MAX_EXPANSIONS
    ensures Deep(g, g.services[at], g.services[k], stack).yes <==> k - at <= MAX_EXPANSIONS - stack + 1
    decreases k - at
  {
    assert Depend(g, g.services[at], g.services[k]) <==> k == at + 1;
    if k > at + 1 && stack < MAX_EXPANSIONS {
      ChainLoop(g, k, at, 0, stack + 1);
      ChainDeep(g, k, at + 1, stack + 1);
    }
  }

  /** On a chain every service depends on every later one, but the search says so
      exactly for those at most eleven steps away. */
  lemma ChainFoundUpToEleven(g: Db, k: nat)
    requires Chain(g) && 0 < k < |g.services|
    ensures DependsDeep(g, g.services[0], g.services[k])
    ensures Deep(g, g.services[0], g.services[k], 0).yes <==> k <= 11
  {
    var p := g.services[..k + 1];
    assert DepPath(g, p) by {
      forall i | 0 <= i < |p| - 1 ensures Depend(g, p[i], p[i + 1]) {
        assert p[i] == g.services[i] && p[i + 1] == g.services[i + 1];
      }
    }
    assert p[0] == g.services[0] && p[|p| - 1] == g.services[k];
    ChainDeep(g, k, 0, 0);
  }

  /** There are such chains of any length. */
  function ChainOf(n: nat): (g: Db)
    ensures |g.services| == n
  {
    Db(seq(n, i requires 0 <= i < n => Numbered(i)),
       map i | 0 <= i < n - 1 :: Numbered(i) := [Needs(i + 1)], {})
  }

  function Numbered(i: nat): (r: Name)
    ensures |r.text| == i + 1
  {
    Name(seq(i + 1, _ => 'x'))
  }

  function Needs(i: nat): (e: Entry) { Entry(Need, Some(Numbered(i))) }

  lemma NeedsOnly(g: Db, s: Name, i: nat, check: Name)
    requires g.hook == {} && s in g.entries && g.entries[s] == [Needs(i)] && s != Numbered(i)
    ensures Depend(g, s, check) <==> check == Numbered(i)
  {
    assert Names(g.entries[s][0], Numbered(i));
  }

  lemma ChainOfIsChain(n: nat)
    ensures Chain(ChainOf(n))
  {
    var g := ChainOf(n);
    forall i, j | 0 <= i < n && 0 <= j < n
      ensures Depend(g, g.services[i], g.services[j]) <==> j == i + 1
    {
      assert |g.services[i].text| == i + 1 && |g.services[j].text| == j + 1;
      if i < n - 1 {
        assert g.entries[Numbered(i)] == [Needs(i + 1)];
        assert |Numbered(i + 1).text| == i + 2;
        NeedsOnly(g, Numbered(i), i + 1, g.services[j]);
      }
    }
    forall i, j | 0 <= i < j < n ensures g.services[i] != g.services[j] {
      assert |g.services[i].text| == i + 1 && |g.services[j].text| == j + 1;
    }
  }

  /** So a dependency twelve steps away is missed. */
  lemma TwelveStepsAreMissed()
    ensures var g := ChainOf(13);
            DependsDeep(g, g.services[0], g.services[12]) && !Deep(g, g.services[0], g.services[12], 0).yes
  {
    ChainOfIsChain(13);
    ChainFoundUpToEleven(ChainOf(13), 12);
  }

  // ------------------------------------------------- three steps behind dead ends

  /** A service that needs `n` others, which need nothing, and then `b`; `b` needs `c`, and
      `c` needs `t`.  They are numbered in that order, the first service last. */
  function Fan(n: nat): (g: Db)
    ensures |g.services| == n + 4
  {
    Db(seq(n + 4, i requires 0 <= i < n + 4 => Numbered(i)),
       map[Numbered(n) := [Needs(n + 1)], Numbered(n + 1) := [Needs(n + 2)],
           Numbered(n + 3) := seq(n + 1, i requires 0 <= i < n + 1 => Needs(i))], {})
  }

  predicate FanEdge(n: nat, i: nat, j: nat) {
    (i == n + 3 && j <= n) || (i == n && j == n + 1) || (i == n + 1 && j == n + 2)
  }

  lemma FanDepends(n: nat, i: nat, j: nat)
    requires i < n + 4 && j < n + 4
    ensures Depend(Fan(n), Numbered(i), Numbered(j)) <==> FanEdge(n, i, j)
  {
    var g := Fan(n);
    assert |Numbered(i).text| == i + 1 && |Numbered(j).text| == j + 1;
    assert |Numbered(n).text| == n + 1 && |Numbered(n + 1).text| == n + 2;
    assert |Numbered(n + 2).text| == n + 3 && |Numbered(n + 3).text| == n + 4;
    if i == n { NeedsOnly(g, Numbered(n), n + 1, Numbered(j)); }
    else if i == n + 1 { NeedsOnly(g, Numbered(n + 1), n + 2, Numbered(j)); }
    else if i == n + 3 {
      var es := g.entries[Numbered(i)];
      if j <= n { assert Names(es[j], Numbered(j)); }
      forall k | 0 <= k < |es| && Names(es[k], Numbered(j)) ensures j <= n {
        assert |Numbered(k).text| == k + 1;
      }
    }
  }

  /** A dead end costs one count and finds nothing. */
  lemma {:induction false} DeadLoop(n: nat, d: nat, i: nat, stack: nat)
    requires d < n && i <= n + 4
    ensures CallsFrom(Fan(n), Numbered(d), i, stack) == ({}, stack)
    decreases n + 4 - i
  {
    if i < n + 4 {
      FanDepends(n, d, i);
      DeadLoop(n, d, i + 1, stack);
    }
  }

  lemma DeadEnd(n: nat, d: nat, stack: nat)
    requires d < n
    ensures Calls(Fan(n), Numbered(d), stack) == ({Numbered(d)}, stack + 1)
  {
    if stack + 1 <= MAX_EXPANSIONS { DeadLoop(n, d, 0, stack + 1); }
    assert {Numbered(d)} + {} == {Numbered(d)};
  }

  lemma FanStep(n: nat, i: nat, stack: nat)
    requires i <= n
    ensures var a := Calls(Fan(n), Numbered(i), stack);
            Hits(Fan(n), CallsFrom(Fan(n), Numbered(n + 3), i, stack).0, Numbered(n + 2)) <==>
            Hits(Fan(n), a.0, Numbered(n + 2)) || Hits(Fan(n), CallsFrom(Fan(n), Numbered(n + 3), i + 1, a.1).0, Numbered(n + 2))
  {
    var g := Fan(n);
    FanDepends(n, n + 3, i);
    assert g.services[i] == Numbered(i);
    var a := Calls(g, g.services[i], stack);
    HitsUnion(g, a.0, CallsFrom(g, Numbered(n + 3), i + 1, a.1).0, Numbered(n + 2));
  }

  /** The loop of the first service: after the dead ends it comes to `b`. */
  lemma {:induction false} FanLoop(n: nat, i: nat, stack: nat)
    requires i <= n
    ensures Hits(Fan(n), CallsFrom(Fan(n), Numbered(n + 3), i, stack).0, Numbered(n + 2)) <==>
            Hits(Fan(n), Calls(Fan(n), Numbered(n), stack + n - i).0, Numbered(n + 2))
    decreases n - i
  {
    FanStep(n, i, stack);
    if i < n {
      DeadEnd(n, i, stack);
      FanDepends(n, i, n + 2);
      FanLoop(n, i + 1, stack + 1);
    } else {
      FanTail(n, n + 1, Calls(Fan(n), Numbered(n), stack).1);
    }
  }

  lemma {:induction false} FanTail(n: nat, i: nat, stack: nat)
    requires n < i <= n + 4
    ensures CallsFrom(Fan(n), Numbered(n + 3), i, stack).0 == {}
    decreases n + 4 - i
  {
    if i < n + 4 {
      FanDepends(n, n + 3, i);
      FanTail(n, i + 1, stack);
    }
  }

  /** `b` finds `t` only if it may still expand. */
  lemma SecondOfThree(n: nat, stack: nat)
    ensures Hits(Fan(n), Calls(Fan(n), Numbered(n), stack).0, Numbered(n + 2)) <==> stack < MAX_EXPANSIONS
  {
    var g, b, c, t := Fan(n), Numbered(n), Numbered(n + 1), Numbered(n + 2);
    FanDepends(n, n, n + 2);
    if stack < MAX_EXPANSIONS {
      FanDepends(n, n, n + 1);
      FanDepends(n, n + 1, n + 2);
      assert g.services[n + 1] == c;
      LoopFindsTwo(g, b, t, 0, n + 1, stack + 1);
      CallsDecide(g, b, t, stack);
    }
  }

  /** A dependency three steps away is found if and only if at most eight dead ends come
      before it: the two steps that are always found are the most there can be. */
  lemma ThreeStepsBehindDeadEnds(n: nat)
    ensures var g := Fan(n);
            && DependsDeep(g, Numbered(n + 3), Numbered(n + 2))
            && (Deep(g, Numbered(n + 3), Numbered(n + 2), 0).yes <==> n <= 8)
  {
    var g, s, b, c, t := Fan(n), Numbered(n + 3), Numbered(n), Numbered(n + 1), Numbered(n + 2);
    FanDepends(n, n + 3, n);
    FanDepends(n, n, n + 1);
    FanDepends(n, n + 1, n + 2);
    FanDepends(n, n + 3, n + 2);
    var p := [s, b, c, t];
    assert g.services[n] == b && g.services[n + 1] == c;
    assert DepPath(g, p) && p[0] == s && p[|p| - 1] == t;
    CallsDecide(g, s, t, 0);
    HitsUnion(g, {s}, CallsFrom(g, s, 0, 1).0, t);
    FanLoop(n, 0, 1);
    SecondOfThree(n, 1 + n);
  }

  // ------------------------------------------------------------ the search in place

  /** The counter the C code passes around by address. */
  class Counter {
    var n: nat
    constructor () ensures n == 0 { n := 0; }
  }

  method DependDeep2(g: Db, s: Name, check: Name, stack: Counter) returns (result: bool)
    modifies stack
    ensures result == Deep(g, s, check, old(stack.n)).yes
    ensures stack.n == Deep(g, s, check, old(stack.n)).stack
    decreases Left(stack.n), 0, 0
  {
    var direct := FindDepend(g, s, check);
    if direct { return true; }
    stack.n := stack.n + 1;
    if stack.n > MAX_EXPANSIONS { return false; }
    result := false;
    var i := 0;
    ghost var whole := DeepFrom(g, s, check, 0, stack.n);
    while i < |g.services| && !result
      invariant 0 <= i <= |g.services| && stack.n >= old(stack.n) + 1
      invariant result ==> whole.yes && whole.stack == stack.n
      invariant !result ==>
        var rest := DeepFrom(g, s, check, i, stack.n);
        rest.yes == whole.yes && rest.stack == whole.stack
    {
      var edge := FindDepend(g, s, g.services[i]);
      if edge { result := DependDeep2(g, g.services[i], check, stack); }
      i := i + 1;
    }
  }

  /** initng_depend_deep: yes exactly for the direct dependencies of the services called; so
      only for a real dependency, and always for one of at most two steps. */
  method DependsOn(g: Db, s: Name, check: Name) returns (result: bool)
    ensures result == Deep(g, s, check, 0).yes
    ensures result <==> Hits(g, Calls(g, s, 0).0, check)
    ensures result ==> DependsDeep(g, s, check)
    ensures Depend(g, s, check) ==> result
    ensures forall x | x in g.services && Depend(g, s, x) && Depend(g, x, check) :: result
  {
    var stack := new Counter();
    result := DependDeep2(g, s, check, stack);
    CallsDecide(g, s, check, 0);
    DeepIsSound(g, s, check, 0);
    if Depend(g, s, check) || exists x | x in g.services :: Depend(g, s, x) && Depend(g, x, check) {
      ShortPathsAreFound(g, s, check);
    }
  }
}
