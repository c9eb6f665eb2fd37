/**
  The deferred state change of a service: mark, lock and unlock, and the
  interrupt list every commit puts the service on.

  `Sys` is the value of the service table; the functions on it say what one call
  does, and the class in module Engine performs the same calls in place.
  Services are keyed by an arbitrary type `K`; the class uses object references.
 */
module ServiceState {

  import opened Basics
  import opened Entries

  /** The rough state of a service (e_is). */
  datatype Rough = New | Up | Down | Failed | Starting | Stopping | Waiting

  /** A registered state: its rough state, and whether it has an init hook. */
  datatype State = State(id: nat, rough: Rough, hasInit: bool)

  /** The fields of a service that a state change reads or writes.  `settled` is
      a history variable: the init step of the current state was reached since
      the commit that made it current. */
  datatype Svc = Svc(
    current: State, last: State, next: Option<State>, lock: nat,
    lastRough: Rough, alarm: int, settled: bool)

  /** The service table and the interrupt list; the list is written newest first,
      as it is linked, so a reverse walk goes from its last element to its first. */
  datatype Sys<K> = Sys(svc: map<K, Svc>, queue: seq<K>)

  datatype Action<K> = Mark(k: K, st: State) | Lock(k: K) | Unlock(k: K)

  predicate Known<K>(y: Sys<K>, a: Action<K>) {
    a.k in y.svc
  }

  predicate AllKnown<K>(y: Sys<K>, acts: seq<Action<K>>) {
    forall i | 0 <= i < |acts| :: Known(y, acts[i])
  }

  // ---------------------------------------------------------------- operations

  function CommitSvc(s: Svc): (r: Svc)
    requires s.next.Some?
  {
    Svc(s.next.value, s.current, None, 0, s.current.rough, 0, false)
  }

  /** The guarded list add: a service that is linked already stays where it is. */
  function Enqueue<K(==)>(q: seq<K>, k: K): (r: seq<K>) {
    if k in q then q else [k] + q
  }

  function DoLock<K>(y: Sys<K>, k: K): (r: Sys<K>)
    requires k in y.svc
  {
    y.(svc := y.svc[k := y.svc[k].(lock := y.svc[k].lock + 1)])
  }

  function DoUnlock<K(==)>(y: Sys<K>, k: K): (r: (Sys<K>, bool))
    requires k in y.svc
  {
    var s := y.svc[k];
    if s.lock > 1 then
      (y.(svc := y.svc[k := s.(lock := s.lock - 1)]), false)
    else if s.next.None? then
      (y.(svc := y.svc[k := s.(lock := 0)]), false)
    else
      (Sys(y.svc[k := CommitSvc(s)], Enqueue(y.queue, k)), true)
  }

  function DoMark<K(==)>(y: Sys<K>, k: K, st: State): (r: (Sys<K>, bool))
    requires k in y.svc
  {
    var s := y.svc[k];
    if s.lock > 0 && s.next.Some? then
      (y, false)
    else if s.current == st then
      (y.(svc := y.svc[k := s.(next := None)]), true)
    else
      var y1 := y.(svc := y.svc[k := s.(next := Some(st))]);
      if s.lock == 0 then (DoUnlock(y1, k).0, true) else (y1, true)
  }

  function Do<K(==)>(y: Sys<K>, a: Action<K>): (r: Sys<K>)
    requires Known(y, a)
    ensures r.svc.Keys == y.svc.Keys
  {
    match a
    case Mark(k, st) => DoMark(y, k, st).0
    case Lock(k) => DoLock(y, k)
    case Unlock(k) => DoUnlock(y, k).0
  }

  /** The effect of a hook: any finite sequence of calls, on any services,
      balanced or not. */
  function DoAll<K(==)>(y: Sys<K>, acts: seq<Action<K>>): (r: Sys<K>)
    requires AllKnown(y, acts)
    ensures r.svc.Keys == y.svc.Keys
    decreases |acts|
  {
    if acts == [] then y
    else
      assert Known(y, acts[0]);
      var y1 := Do(y, acts[0]);
      assert AllKnown(y1, acts[1..]) by {
        forall i | 0 <= i < |acts| - 1 ensures Known(y1, acts[1..][i]) { assert Known(y, acts[i + 1]); }
      }
      DoAll(y1, acts[1..])
  }

  lemma DoAllUnfold<K>(y: Sys<K>, acts: seq<Action<K>>)
    requires AllKnown(y, acts) && acts != []
    ensures Known(y, acts[0])
    ensures AllKnown(Do(y, acts[0]), acts[1..])
    ensures DoAll(y, acts) == DoAll(Do(y, acts[0]), acts[1..])
  {
    forall i | 0 <= i < |acts| ensures Known(Do(y, acts[0]), acts[i]) { assert Known(y, acts[i]); }
  }

  // ----------------------------------------------------------------- invariant

  /** An unlocked service has no pending state, and a pending state differs from
      the current one. */
  predicate SvcOk(s: Svc) {
    && (s.lock == 0 ==> s.next.None?)
    && (s.next.Some? ==> s.next.value != s.current)
  }

  /** What every call keeps.  `busy` are the services inside `handle` right now. */
  predicate Inv<K(==)>(y: Sys<K>, busy: set<K>) {
    && Distinct(y.queue)
    && (forall i | 0 <= i < |y.queue| :: y.queue[i] in y.svc)
    && (forall k | k in y.svc :: SvcOk(y.svc[k]))
    && (forall k | k in y.svc :: y.svc[k].settled || k in y.queue || k in busy)
  }

  lemma EnqueueKeeps<K>(q: seq<K>, k: K)
    requires Distinct(q)
    ensures Distinct(Enqueue(q, k)) && k in Enqueue(q, k)
    ensures forall x :: x in Enqueue(q, k) <==> x in q || x == k
  {
    var r := Enqueue(q, k);
    if k !in q {
      assert r[0] == k;
      forall x ensures x in r <==> x in q || x == k {
        if x in q { var i :| 0 <= i < |q| && q[i] == x; assert r[i + 1] == x; }
      }
    }
  }

  /** Commit: the service is on the interrupt list, everyone else is untouched. */
  lemma CommitKeeps<K>(y: Sys<K>, k: K, busy: set<K>)
    requires Inv(y, busy) && k in y.svc && y.svc[k].next.Some?
    ensures Inv(Sys(y.svc[k := CommitSvc(y.svc[k])], Enqueue(y.queue, k)), busy)
  {
    EnqueueKeeps(y.queue, k);
    var r := Sys(y.svc[k := CommitSvc(y.svc[k])], Enqueue(y.queue, k));
    forall i | 0 <= i < |r.queue| ensures r.queue[i] in r.svc {
      assert r.queue[i] in r.queue;
    }
    forall x | x in r.svc ensures r.svc[x].settled || x in r.queue || x in busy {
      if x != k { assert x in y.svc; }
    }
  }

  lemma DoKeepsInv<K>(y: Sys<K>, a: Action<K>, busy: set<K>)
    requires Inv(y, busy) && Known(y, a)
    ensures Inv(Do(y, a), busy)
  {
    var s := y.svc[a.k];
    assert SvcOk(s);
    match a
    case Lock(k) =>
    case Unlock(k) =>
      if s.lock <= 1 && s.next.Some? { CommitKeeps(y, k, busy); }
    case Mark(k, st) =>
      if !(s.lock > 0 && s.next.Some?) && s.current != st && s.lock == 0 {
        MarkUnlockedCommits(y, k, st);
        var y1 := y.(svc := y.svc[k := s.(next := Some(st), lock := 1)]);
        assert Inv(y1, busy);
        CommitKeeps(y1, k, busy);
        assert Do(y, a).svc == y1.svc[k := CommitSvc(y1.svc[k])];
      }
  }

  lemma MarkUnlockedCommits<K>(y: Sys<K>, k: K, st: State)
    requires k in y.svc && y.svc[k].lock == 0 && y.svc[k].current != st
    ensures DoMark(y, k, st).1
    ensures DoMark(y, k, st).0 ==
            Sys(y.svc[k := CommitSvc(y.svc[k].(next := Some(st)))], Enqueue(y.queue, k))
  {
    var y1 := y.(svc := y.svc[k := y.svc[k].(next := Some(st))]);
    assert DoUnlock(y1, k).0.svc == y.svc[k := CommitSvc(y1.svc[k])];
  }

  lemma {:induction false} DoAllKeepsInv<K>(y: Sys<K>, acts: seq<Action<K>>, busy: set<K>)
    requires Inv(y, busy) && AllKnown(y, acts)
    ensures Inv(DoAll(y, acts), busy)
    decreases |acts|
  {
    if acts != [] {
      assert Known(y, acts[0]);
      DoKeepsInv(y, acts[0], busy);
      DoAllKeepsInv(Do(y, acts[0]), acts[1..], busy);
    }
  }

  // -------------------------------------------------- what a single call can do

  /** A call changes at most its own service.  The current state moves only when
      the service is unlocked afterwards, and then it moves to a pending or
      freshly marked state and the service is on the interrupt list, once. */
  lemma CommitIsQueuedOnce<K>(y: Sys<K>, a: Action<K>, k: K)
    requires Inv(y, y.svc.Keys) && Known(y, a) && k in y.svc
    ensures var r := Do(y, a);
            && (k != a.k ==> r.svc[k] == y.svc[k])
            && (y.svc[k].lock > 0 && r.svc[k].lock > 0 ==> r.svc[k].current == y.svc[k].current)
            && (r.svc[k].current != y.svc[k].current ==>
                  && r.svc[k].lock == 0
                  && r.svc[k].last == y.svc[k].current
                  && r.svc[k].alarm == 0 && r.svc[k].lastRough == y.svc[k].current.rough
                  && !r.svc[k].settled
                  && k in r.queue && Distinct(r.queue)
                  && (a == Mark(k, r.svc[k].current) || y.svc[k].next == Some(r.svc[k].current)))
  {
    var r := Do(y, a);
    DoKeepsInv(y, a, y.svc.Keys);
    assert SvcOk(y.svc[k]);
    if r.svc[k].current != y.svc[k].current {
      if a.Mark? {
        if y.svc[k].lock == 0 { MarkUnlockedCommits(y, k, a.st); }
      }
      EnqueueKeeps(y.queue, k);
    }
  }

  /** No call settles a service. */
  lemma DoNeverSettles<K>(y: Sys<K>, a: Action<K>, k: K)
    requires Known(y, a) && k in y.svc && !y.svc[k].settled
    ensures !Do(y, a).svc[k].settled
  {
  }

  lemma {:induction false} DoAllNeverSettles<K>(y: Sys<K>, acts: seq<Action<K>>, k: K)
    requires AllKnown(y, acts) && k in y.svc && !y.svc[k].settled
    ensures !DoAll(y, acts).svc[k].settled
    decreases |acts|
  {
    if acts != [] {
      DoAllUnfold(y, acts);
      DoNeverSettles(y, acts[0], k);
      DoAllNeverSettles(Do(y, acts[0]), acts[1..], k);
    }
  }

  // ------------------------------------------ the first pending mark is the one

  /** The lock depth of `k` after `acts`, when it never drops to zero. */
  predicate StaysLocked<K(==)>(depth: nat, acts: seq<Action<K>>, k: K)
    decreases |acts|
  {
    depth > 0 &&
    (acts != [] ==>
       StaysLocked(
         if acts[0] == Lock(k) then depth + 1
         else if acts[0] == Unlock(k) then depth - 1 else depth,
         acts[1..], k))
  }

  /** The first mark of `k` to a state other than `cur`. */
  function FirstMark<K(==)>(acts: seq<Action<K>>, k: K, cur: State): (r: Option<State>) {
    if acts == [] then None
    else if acts[0].Mark? && acts[0].k == k && acts[0].st != cur then Some(acts[0].st)
    else FirstMark(acts[1..], k, cur)
  }

  /** While a service stays locked its current state is frozen, and its pending
      state is the one it had, or else the first mark to a different state; all
      later marks are refused. */
  lemma {:induction false} LockedRun<K>(y: Sys<K>, acts: seq<Action<K>>, k: K)
    requires AllKnown(y, acts) && k in y.svc
    requires StaysLocked(y.svc[k].lock, acts, k)
    requires y.svc[k].next.Some? ==> y.svc[k].next.value != y.svc[k].current
    ensures var r := DoAll(y, acts).svc[k];
            && r.lock > 0
            && r.current == y.svc[k].current
            && r.last == y.svc[k].last
            && r.next == if y.svc[k].next.Some? then y.svc[k].next
                         else FirstMark(acts, k, y.svc[k].current)
    decreases |acts|
  {
    if acts != [] {
      assert Known(y, acts[0]);
      var y1 := Do(y, acts[0]);
      LockedRun(y1, acts[1..], k);
    }
  }

  /** Lock, run any hook that keeps the lock, unlock the outermost level: the
      service moves exactly to the first state it was marked with that differs
      from its current one, and stays where it is if there is none. */
  lemma OutermostUnlockCommitsFirstMark<K>(y: Sys<K>, acts: seq<Action<K>>, k: K)
    requires Inv(y, y.svc.Keys) && AllKnown(y, acts) && k in y.svc
    requires y.svc[k].lock == 0 && StaysLocked(1, acts, k)
    requires DoAll(DoLock(y, k), acts).svc[k].lock == 1
    ensures AllKnown(DoLock(y, k), acts)
    ensures var first := FirstMark(acts, k, y.svc[k].current);
            var (r, changed) := DoUnlock(DoAll(DoLock(y, k), acts), k);
            && changed == first.Some?
            && r.svc[k].lock == 0 && r.svc[k].next.None?
            && r.svc[k].current == (if first.Some? then first.value else y.svc[k].current)
            && (changed ==> k in r.queue)
  {
    assert SvcOk(y.svc[k]);
    LockedKnown(y, k, acts);
    LockedRun(DoLock(y, k), acts, k);
    var z := DoAll(DoLock(y, k), acts);
    if z.svc[k].next.Some? {
      assert k in Enqueue(z.queue, k) by { if k !in z.queue { assert ([k] + z.queue)[0] == k; } }
    }
  }

  lemma LockedKnown<K>(y: Sys<K>, k: K, acts: seq<Action<K>>)
    requires AllKnown(y, acts) && k in y.svc
    ensures AllKnown(DoLock(y, k), acts)
  {
    forall i | 0 <= i < |acts| ensures Known(DoLock(y, k), acts[i]) { assert Known(y, acts[i]); }
  }
}
