/**
  The alarms of all services, and the cached time of the next one.

  A zero alarm is one that is not set.  Alarm handlers are user code: each answers with the
  alarms it sets and the state changes it makes, on any services.
 */
module Alarm {

  /** The longest time the main loop sleeps, in seconds. */
  const TIMEOUT := 60000

  datatype Clock = Clock(now: int, next: int, alarms: seq<int>)

  /** What a handler does: set an alarm some seconds ahead, or change a state, which unsets it. */
  datatype Act = Set(k: nat, seconds: int) | Changed(k: nat)

  predicate Fits(c: Clock, a: Act) { a.k < |c.alarms| }

  function Do(c: Clock, a: Act): (r: Clock)
    requires Fits(c, a)
    ensures |r.alarms| == |c.alarms| && r.now == c.now
  {
    match a
    case Set(k, seconds) =>
      var t := c.now + seconds;
      Clock(c.now, if c.next == 0 || t < c.next then t else c.next, c.alarms[k := t])
    case Changed(k) => c.(alarms := c.alarms[k := 0])
  }

  predicate AllFit(n: nat, acts: seq<Act>) { forall a <- acts :: a.k < n }

  function DoAll(c: Clock, acts: seq<Act>): (r: Clock)
    requires AllFit(|c.alarms|, acts)
    ensures |r.alarms| == |c.alarms| && r.now == c.now
    decreases |acts|
  {
    if acts == [] then c else DoAll(Do(c, acts[0]), acts[1..])
  }

  /** One handler for each service; `[]` for a state without one. */
  type Handlers = seq<seq<Act>>

  predicate Serves(h: Handlers, n: nat) { |h| == n && forall acts <- h :: AllFit(n, acts) }

  predicate Due(c: Clock, k: nat)
    requires k < |c.alarms|
  {
    c.alarms[k] != 0 && c.now >= c.alarms[k]
  }

  /** The pass at service `i`. */
  function Visit(c: Clock, h: Handlers, i: nat): (r: Clock)
    requires i < |c.alarms| && Serves(h, |c.alarms|)
    ensures |r.alarms| == |c.alarms| && r.now == c.now
  {
    if c.alarms[i] == 0 then c
    else if Due(c, i) then DoAll(c.(alarms := c.alarms[i := 0]), h[i])
    else if c.alarms[i] < c.next || c.next == 0 then c.(next := c.alarms[i])
    else c
  }

  /** The pass from service `i` on, and the services whose alarm went off. */
  function PassFrom(c: Clock, h: Handlers, i: nat): (r: (Clock, seq<nat>))
    requires i <= |c.alarms| && Serves(h, |c.alarms|)
    ensures |r.0.alarms| == |c.alarms| && r.0.now == c.now
    decreases |c.alarms| - i
  {
    if i == |c.alarms| then (c, [])
    else
      var (r, fired) := PassFrom(Visit(c, h, i), h, i + 1);
      (r, if Due(c, i) then [i] + fired else fired)
  }

  /** initng_handler_run_alarm. */
  function Pass(c: Clock, h: Handlers): (r: (Clock, seq<nat>))
    requires Serves(h, |c.alarms|)
  {
    PassFrom(c.(next := 0), h, 0)
  }

  /** The sleep when no alarm cuts it short. */
  function Longest(sleepSeconds: int): (s: int) {
    if sleepSeconds != 0 && sleepSeconds < TIMEOUT then sleepSeconds else TIMEOUT
  }

  /** How long the main loop polls; zero when it does not. */
  function Sleep(c: Clock, sleepSeconds: int, interrupted: bool): (s: int) {
    var s0 := Longest(sleepSeconds);
    var s1 := if c.next != 0 && c.next > c.now && c.next - c.now < s0 then c.next - c.now else s0;
    if s1 > 0 && !interrupted then s1 else 0
  }

  // --------------------------------------------------------------- the cached lower bound

  predicate TrackedAt(c: Clock, k: nat)
    requires k < |c.alarms|
  {
    c.alarms[k] != 0 ==> c.next != 0 && c.next <= c.alarms[k]
  }

  /** `next` is set when any alarm is, and none comes before it. */
  predicate Tracked(c: Clock) { forall k | 0 <= k < |c.alarms| :: TrackedAt(c, k) }

  /** No alarm is due, and neither is the cached one. */
  predicate NoneDue(c: Clock) {
    && (forall k | 0 <= k < |c.alarms| :: !Due(c, k))
    && (c.next != 0 ==> c.next > c.now)
  }

  /** Alarms that may be set: at zero seconds or later, or strictly later. */
  predicate Ahead(a: Act, least: int) { a.Set? ==> a.seconds >= least }

  predicate AllAhead(acts: seq<Act>, least: int) { forall a <- acts :: Ahead(a, least) }

  predicate HandlersAhead(h: Handlers, least: int) { forall acts <- h :: AllAhead(acts, least) }

  /** The state of a pass that has visited the services before `i`. */
  predicate Passed(c: Clock, i: nat) {
    i <= |c.alarms| && forall k | 0 <= k < i :: TrackedAt(c, k)
  }

  predicate PassedQuiet(c: Clock, i: nat) {
    && i <= |c.alarms| && (c.next != 0 ==> c.next > c.now)
    && forall k | 0 <= k < i :: !Due(c, k)
  }

  lemma DoKeeps(c: Clock, a: Act, i: nat)
    requires Fits(c, a) && Passed(c, i) && c.now > 0 && Ahead(a, 0)
    ensures Passed(Do(c, a), i)
    ensures PassedQuiet(c, i) && Ahead(a, 1) ==> PassedQuiet(Do(c, a), i)
  {
    var r := Do(c, a);
    forall k | 0 <= k < i ensures TrackedAt(r, k) {
      assert TrackedAt(c, k);
    }
    if PassedQuiet(c, i) && Ahead(a, 1) {
      forall k | 0 <= k < i ensures !Due(r, k) {
        assert !Due(c, k);
      }
    }
  }

  lemma {:induction false} DoAllKeeps(c: Clock, acts: seq<Act>, i: nat)
    requires AllFit(|c.alarms|, acts) && Passed(c, i) && c.now > 0 && AllAhead(acts, 0)
    ensures Passed(DoAll(c, acts), i)
    ensures PassedQuiet(c, i) && AllAhead(acts, 1) ==> PassedQuiet(DoAll(c, acts), i)
    decreases |acts|
  {
    if acts != [] {
      DoKeeps(c, acts[0], i);
      DoAllKeeps(Do(c, acts[0]), acts[1..], i);
    }
  }

  lemma VisitKeeps(c: Clock, h: Handlers, i: nat)
    requires i < |c.alarms| && Serves(h, |c.alarms|) && Passed(c, i) && c.now > 0 && HandlersAhead(h, 0)
    ensures Passed(Visit(c, h, i), i + 1)
    ensures PassedQuiet(c, i) && HandlersAhead(h, 1) ==> PassedQuiet(Visit(c, h, i), i + 1)
  {
    var r := Visit(c, h, i);
    if Due(c, i) {
      var c1 := c.(alarms := c.alarms[i := 0]);
      assert forall k | 0 <= k < i :: TrackedAt(c, k) ==> TrackedAt(c1, k);
      if PassedQuiet(c, i) { assert forall k | 0 <= k < i :: !Due(c, k) ==> !Due(c1, k); }
      DoAllKeeps(c1, h[i], i + 1);
    } else {
      assert forall k | 0 <= k < i :: TrackedAt(c, k) ==> TrackedAt(r, k);
      if PassedQuiet(c, i) { assert forall k | 0 <= k < i :: !Due(c, k) ==> !Due(r, k); }
    }
  }

  /** After a pass the cached time is again a bound on every alarm; and when handlers set
      alarms in the future, nothing is left due. */
  lemma {:induction false} PassTracks(c: Clock, h: Handlers, i: nat)
    requires i <= |c.alarms| && Serves(h, |c.alarms|) && Passed(c, i) && c.now > 0 && HandlersAhead(h, 0)
    ensures Tracked(PassFrom(c, h, i).0)
    ensures PassedQuiet(c, i) && HandlersAhead(h, 1) ==> NoneDue(PassFrom(c, h, i).0)
    decreases |c.alarms| - i
  {
    if i < |c.alarms| {
      VisitKeeps(c, h, i);
      PassTracks(Visit(c, h, i), h, i + 1);
    }
  }

  // ---------------------------------------------------------------------- who is called

  /** Handlers that touch only the service they are called for. */
  predicate Own(h: Handlers) { forall k | 0 <= k < |h| :: forall a <- h[k] :: a.k == k }

  lemma {:induction false} DoAllOwn(c: Clock, acts: seq<Act>, i: nat)
    requires AllFit(|c.alarms|, acts) && forall a <- acts :: a.k == i
    ensures forall k | 0 <= k < |c.alarms| && k != i :: DoAll(c, acts).alarms[k] == c.alarms[k]
    decreases |acts|
  {
    if acts != [] { DoAllOwn(Do(c, acts[0]), acts[1..], i); }
  }

  predicate InOrder(ks: seq<nat>, lo: nat, hi: nat) {
    && (forall x | 0 <= x < |ks| :: lo <= ks[x] < hi)
    && (forall x, y | 0 <= x < y < |ks| :: ks[x] < ks[y])
  }

  lemma InOrderFrom(ks: seq<nat>, lo: nat, hi: nat)
    requires InOrder(ks, lo + 1, hi) && lo < hi
    ensures InOrder(ks, lo, hi) && InOrder([lo] + ks, lo, hi)
  {
    var all := [lo] + ks;
    assert forall x | 1 <= x < |all| :: all[x] == ks[x - 1];
  }

  /** A pass calls services in order and none twice; where handlers keep to their own
      service, it calls exactly those whose alarm was due. */
  lemma {:induction false} PassCalls(c: Clock, h: Handlers, i: nat)
    requires i <= |c.alarms| && Serves(h, |c.alarms|)
    ensures var fired := PassFrom(c, h, i).1;
            && InOrder(fired, i, |c.alarms|)
            && (Own(h) ==> forall k | i <= k < |c.alarms| :: k in fired <==> Due(c, k))
    decreases |c.alarms| - i
  {
    if i < |c.alarms| {
      var c1 := Visit(c, h, i);
      PassCalls(c1, h, i + 1);
      var fired, rest := PassFrom(c, h, i).1, PassFrom(c1, h, i + 1).1;
      assert fired == if Due(c, i) then [i] + rest else rest;
      InOrderFrom(rest, i, |c.alarms|);
      if Own(h) {
        if Due(c, i) { DoAllOwn(c.(alarms := c.alarms[i := 0]), h[i], i); }
        forall k | i <= k < |c.alarms| ensures k in fired <==> Due(c, k) {
          if k > i { assert c1.alarms[k] == c.alarms[k]; }
        }
      }
    }
  }

  // ------------------------------------------------------------------------- every run

  /** What happens to the clock: work done by the services, a drain of the interrupt list
      that handled something, with what the init hooks did in it, time passing, the check of
      the main loop, a pass forced by SIGALRM, and services coming and going. */
  datatype Event =
    | Work(a: Act)
    | Drained(acts: seq<Act>)
    | Tick(now: int)
    | Main(h: Handlers)
    | Alarmed(h: Handlers)
    | Created
    | Freed(k: nat)

  predicate Can(c: Clock, e: Event) {
    match e
    case Work(a) => Fits(c, a)
    case Drained(acts) => AllFit(|c.alarms|, acts)
    case Tick(now) => c.now <= now
    case Main(h) => Serves(h, |c.alarms|)
    case Alarmed(h) => Serves(h, |c.alarms|)
    case Created => true
    case Freed(k) => k < |c.alarms|
  }

  function Next(c: Clock, e: Event): (r: Clock)
    requires Can(c, e)
  {
    match e
    case Work(a) => Do(c, a)
    case Drained(acts) => DoAll(c, acts)
    case Tick(now) => c.(now := now)
    case Main(h) => if c.next != 0 && c.next <= c.now then Pass(c, h).0 else c
    case Alarmed(h) => Pass(c, h).0
    case Created => c.(alarms := c.alarms + [0])
    case Freed(k) => c.(alarms := c.alarms[..k] + c.alarms[k + 1..])
  }

  /** Every alarm this event sets lies at least `least` seconds ahead. */
  predicate EventAhead(e: Event, least: int) {
    match e
    case Work(a) => Ahead(a, least)
    case Drained(acts) => AllAhead(acts, least)
    case Main(h) => HandlersAhead(h, least)
    case Alarmed(h) => HandlersAhead(h, least)
    case _ => true
  }

  /** Init hooks, which run in the drain, may set an alarm for now, as one for a pause of zero
      seconds is; all others set alarms in the future. */
  predicate Sane(e: Event) { EventAhead(e, if e.Drained? then 0 else 1) }

  lemma NextTracks(c: Clock, e: Event)
    requires Can(c, e) && Tracked(c) && c.now > 0 && EventAhead(e, 0)
    ensures Tracked(Next(c, e)) && Next(c, e).now > 0
  {
    match e
    case Work(a) => DoKeeps(c, a, |c.alarms|);
    case Drained(acts) => DoAllKeeps(c, acts, |c.alarms|);
    case Tick(now) => assert forall k | 0 <= k < |c.alarms| :: TrackedAt(c, k) ==> TrackedAt(c.(now := now), k);
    case Main(h) => PassTracks(c.(next := 0), h, 0);
    case Alarmed(h) => PassTracks(c.(next := 0), h, 0);
    case Created => assert forall k | 0 <= k < |c.alarms| :: TrackedAt(c, k) ==> TrackedAt(Next(c, e), k);
    case Freed(j) =>
      var r := Next(c, e);
      forall k | 0 <= k < |r.alarms| ensures TrackedAt(r, k) {
        assert TrackedAt(c, if k < j then k else k + 1);
      }
  }

  /** The main loop's check leaves nothing due; until time passes or a drain sets an alarm,
      nothing else does. */
  lemma NextLeavesNoneDue(c: Clock, e: Event)
    requires Can(c, e) && Tracked(c) && c.now > 0 && EventAhead(e, 1)
    requires e.Main? || e.Alarmed? || (NoneDue(c) && !e.Tick?)
    ensures NoneDue(Next(c, e))
  {
    match e
    case Work(a) => DoKeeps(c, a, |c.alarms|);
    case Drained(acts) => DoAllKeeps(c, acts, |c.alarms|);
    case Main(h) =>
      if c.next != 0 && c.next <= c.now { PassTracks(c.(next := 0), h, 0); }
      else { assert forall k | 0 <= k < |c.alarms| :: TrackedAt(c, k) ==> !Due(c, k); }
    case Alarmed(h) => PassTracks(c.(next := 0), h, 0);
    case Created => assert forall k | 0 <= k < |c.alarms| :: !Due(c, k) ==> !Due(Next(c, e), k);
    case Freed(j) =>
      var r := Next(c, e);
      forall k | 0 <= k < |r.alarms| ensures !Due(r, k) {
        assert !Due(c, if k < j then k else k + 1);
      }
  }

  /** No alarm lies in the past. */
  predicate NoneLate(c: Clock) { forall k | 0 <= k < |c.alarms| :: NotLate(c, k) }

  predicate NotLate(c: Clock, k: nat)
    requires k < |c.alarms|
  {
    c.alarms[k] != 0 ==> c.alarms[k] >= c.now
  }

  lemma NoneDueNoneLate(c: Clock)
    requires NoneDue(c)
    ensures NoneLate(c)
  {
    forall k | 0 <= k < |c.alarms| ensures NotLate(c, k) { assert !Due(c, k); }
  }

  lemma {:induction false} DoAllNoneLate(c: Clock, acts: seq<Act>)
    requires AllFit(|c.alarms|, acts) && AllAhead(acts, 0) && NoneLate(c)
    ensures NoneLate(DoAll(c, acts))
    decreases |acts|
  {
    if acts != [] {
      var d := Do(c, acts[0]);
      forall k | 0 <= k < |d.alarms| ensures NotLate(d, k) { assert NotLate(c, k) && Ahead(acts[0], 0); }
      DoAllNoneLate(d, acts[1..]);
    }
  }

  lemma NextLeavesNoneLate(c: Clock, e: Event)
    requires Can(c, e) && Tracked(c) && c.now > 0 && Sane(e) && !e.Tick? && NoneLate(c)
    ensures NoneLate(Next(c, e))
  {
    match e
    case Work(a) =>
      assert DoAll(c, [a]) == Do(c, a) by { assert [a][1..] == []; assert DoAll(Do(c, a), []) == Do(c, a); }
      DoAllNoneLate(c, [a]);
    case Drained(acts) => DoAllNoneLate(c, acts);
    case Main(h) =>
      NextLeavesNoneDue(c, e);
      NoneDueNoneLate(Next(c, e));
    case Alarmed(h) =>
      NextLeavesNoneDue(c, e);
      NoneDueNoneLate(Next(c, e));
    case Created => assert forall k | 0 <= k < |c.alarms| :: NotLate(c, k) ==> NotLate(Next(c, e), k);
    case Freed(j) =>
      var r := Next(c, e);
      forall k | 0 <= k < |r.alarms| ensures NotLate(r, k) {
        assert NotLate(c, if k < j then k else k + 1);
      }
  }

  predicate Run(cs: seq<Clock>, es: seq<Event>) {
    && |cs| == |es| + 1 && cs[0].now > 0 && cs[0].next == 0 && cs[0].alarms == []
    && forall i | 0 <= i < |es| :: Can(cs[i], es[i]) && cs[i + 1] == Next(cs[i], es[i])
  }

  /** In every run whose alarms are not set in the past, the cached time is a bound. */
  lemma {:induction false} AlwaysTracked(cs: seq<Clock>, es: seq<Event>, i: nat)
    requires Run(cs, es) && i <= |es| && forall e <- es :: EventAhead(e, 0)
    ensures Tracked(cs[i]) && cs[i].now > 0
  {
    if i > 0 {
      AlwaysTracked(cs, es, i - 1);
      assert Can(cs[i - 1], es[i - 1]);
      NextTracks(cs[i - 1], es[i - 1]);
    }
  }

  /** The interrupt list was drained of something since the check at `m`. */
  predicate Interrupted(es: seq<Event>, m: nat, i: nat)
    requires i <= |es|
  {
    exists j | m < j < i :: es[j].Drained?
  }

  /** From the main loop's check up to the next look at the clock: no alarm is in the past,
      and none is due unless a drain has set it. */
  lemma {:induction false} QuietUntilTick(cs: seq<Clock>, es: seq<Event>, m: nat, i: nat)
    requires Run(cs, es) && m < i <= |es| && forall e <- es :: Sane(e)
    requires es[m].Main? && forall j | m < j < i :: !es[j].Tick?
    ensures Tracked(cs[i]) && NoneLate(cs[i]) && (!Interrupted(es, m, i) ==> NoneDue(cs[i]))
  {
    assert forall e <- es :: Sane(e) ==> EventAhead(e, 0);
    AlwaysTracked(cs, es, i - 1);
    AlwaysTracked(cs, es, i);
    var c, e := cs[i - 1], es[i - 1];
    assert Can(c, e) && cs[i] == Next(c, e) && e in es;
    if m == i - 1 {
      NextLeavesNoneDue(c, e);
      NoneDueNoneLate(cs[i]);
    } else {
      QuietUntilTick(cs, es, m, i - 1);
      NextLeavesNoneLate(c, e);
      if !Interrupted(es, m, i) {
        assert !Interrupted(es, m, i - 1);
        NextLeavesNoneDue(c, e);
      }
    }
  }

  /** In every run the sleep computed in a turn of the main loop ends no later than the
      earliest alarm, one that the drain has set for now included: then it does not sleep. */
  lemma SleepsInTime(cs: seq<Clock>, es: seq<Event>, m: nat, i: nat, sleepSeconds: int)
    requires Run(cs, es) && m < i <= |es| && forall e <- es :: Sane(e)
    requires es[m].Main? && forall j | m < j < i :: !es[j].Tick?
    ensures InTime(cs[i], Sleep(cs[i], sleepSeconds, Interrupted(es, m, i)))
  {
    QuietUntilTick(cs, es, m, i);
    var c := cs[i];
    forall k | 0 <= k < |c.alarms| && c.alarms[k] != 0
      ensures c.now + Sleep(c, sleepSeconds, Interrupted(es, m, i)) <= c.alarms[k]
    {
      assert TrackedAt(c, k) && NotLate(c, k);
      if !Interrupted(es, m, i) { assert !Due(c, k); }
    }
  }

  predicate InTime(c: Clock, sleep: int) {
    forall k | 0 <= k < |c.alarms| && c.alarms[k] != 0 :: c.now + sleep <= c.alarms[k]
  }

  /** And in every run an alarm whose time has come when the clock is read is called by the
      check that follows. */
  lemma DueIsCalled(cs: seq<Clock>, es: seq<Event>, i: nat, now: int, h: Handlers, k: nat)
    requires Run(cs, es) && i <= |es| && forall e <- es :: Sane(e)
    requires cs[i].now <= now && k < |cs[i].alarms| && Serves(h, |cs[i].alarms|) && Own(h)
    requires cs[i].alarms[k] != 0 && cs[i].alarms[k] <= now
    ensures var c := Next(cs[i], Tick(now));
            Next(c, Main(h)) == Pass(c, h).0 && k in Pass(c, h).1
  {
    assert forall e <- es :: Sane(e) ==> EventAhead(e, 0);
    AlwaysTracked(cs, es, i);
    assert TrackedAt(cs[i], k);
    var c := Next(cs[i], Tick(now));
    PassCalls(c.(next := 0), h, 0);
    assert Due(c.(next := 0), k);
  }

  /** An alarm set so many seconds ahead is called by the check at a later time exactly if that
      many seconds have passed. */
  lemma CalledExactlyWhenDue(c: Clock, k: nat, seconds: int, now: int, h: Handlers)
    requires Tracked(c) && c.now > 0 && k < |c.alarms| && seconds > 0 && now >= c.now
    requires Serves(h, |c.alarms|) && Own(h)
    ensures var d := Next(Next(c, Work(Set(k, seconds))), Tick(now));
            (d.next != 0 && d.next <= d.now && k in Pass(d, h).1) <==> now >= c.now + seconds
  {
    NextTracks(c, Work(Set(k, seconds)));
    var d := Next(Next(c, Work(Set(k, seconds))), Tick(now));
    assert d.alarms[k] == c.now + seconds;
    NextTracks(Next(c, Work(Set(k, seconds))), Tick(now));
    assert TrackedAt(d, k);
    PassCalls(d.(next := 0), h, 0);
    assert Due(d.(next := 0), k) <==> now >= c.now + seconds;
  }

  /** What the init hooks do in a drain, they do one after the other. */
  lemma DrainedInSteps(c: Clock, acts: seq<Act>)
    requires Can(c, Drained(acts))
    ensures acts == [] ==> Next(c, Drained(acts)) == c
    ensures acts != [] ==> Next(c, Drained(acts)) == Next(Next(c, Work(acts[0])), Drained(acts[1..]))
  {
  }

  /** A state change unsets the alarm, and a new service has none: neither is called, however
      late it is. */
  lemma UnsetIsNotCalled(c: Clock, k: nat, now: int, h: Handlers)
    requires c.now <= now && Own(h)
    ensures k < |c.alarms| && Serves(h, |c.alarms|) ==>
              k !in Pass(Next(Next(c, Work(Changed(k))), Tick(now)), h).1
    ensures Serves(h, |c.alarms| + 1) ==>
              |c.alarms| !in Pass(Next(Next(c, Created), Tick(now)), h).1
  {
    if k < |c.alarms| && Serves(h, |c.alarms|) {
      var d := Next(Next(c, Work(Changed(k))), Tick(now));
      PassCalls(d.(next := 0), h, 0);
      assert !Due(d.(next := 0), k);
    }
    if Serves(h, |c.alarms| + 1) {
      var d := Next(Next(c, Created), Tick(now));
      PassCalls(d.(next := 0), h, 0);
      assert !Due(d.(next := 0), |c.alarms|);
    }
  }

  /** The sleep is the least of the longest one, the seconds asked for and the time to the
      cached alarm; an interrupted loop does not sleep. */
  lemma SleepIsLeast(c: Clock, sleepSeconds: int)
    requires sleepSeconds >= 0
    ensures Sleep(c, sleepSeconds, true) == 0
    ensures var s := Sleep(c, sleepSeconds, false);
            && 0 < s <= 60000
            && (sleepSeconds > 0 ==> s <= sleepSeconds)
            && (c.next != 0 && c.next > c.now ==> s <= c.next - c.now)
            && (s == 60000 || s == sleepSeconds || (c.next != 0 && s == c.next - c.now))
  {
  }

  /** For any clock with a bound, exactly when a sleep ends in time.  A loop that was
      interrupted does not sleep, so no alarm may lie in the past; otherwise no alarm may be
      due, and the cached time must be ahead, unless all alarms lie beyond the longest sleep. */
  lemma WakesInTime(c: Clock, sleepSeconds: int, interrupted: bool)
    requires Tracked(c) && sleepSeconds >= 0
    ensures InTime(c, Sleep(c, sleepSeconds, interrupted)) <==>
            if interrupted then NoneLate(c)
            else && (forall k | 0 <= k < |c.alarms| :: !Due(c, k))
                 && (c.next > c.now || InTime(c, Longest(sleepSeconds)))
  {
    var s := Sleep(c, sleepSeconds, interrupted);
    if interrupted {
      assert forall k | 0 <= k < |c.alarms| :: NotLate(c, k) <==> (c.alarms[k] != 0 ==> c.now + s <= c.alarms[k]);
    } else {
      assert 0 < s <= Longest(sleepSeconds);
      if InTime(c, s) && c.next <= c.now { assert s == Longest(sleepSeconds); }
      forall k | 0 <= k < |c.alarms| && c.alarms[k] != 0 && !Due(c, k) && c.next > c.now
        ensures c.now + s <= c.alarms[k]
      {
        assert TrackedAt(c, k);
      }
    }
  }

  // -------------------------------------------------------------------- as it runs

  class Alarms {
    var now: int
    var nextAlarm: int
    var alarms: seq<int>

    ghost function View(): (c: Clock)
      reads this
    {
      Clock(now, nextAlarm, alarms)
    }

    method SetAlarm(k: nat, seconds: int)
      requires k < |alarms|
      modifies this
      ensures View() == Do(old(View()), Set(k, seconds))
    {
      alarms := alarms[k := now + seconds];
      if nextAlarm == 0 || alarms[k] < nextAlarm { nextAlarm := alarms[k]; }
    }

    /** A handler's work, one act after the other. */
    method Handle(acts: seq<Act>)
      requires AllFit(|alarms|, acts)
      modifies this
      ensures View() == DoAll(old(View()), acts)
    {
      var i := 0;
      while i < |acts|
        invariant i <= |acts| && |alarms| == old(|alarms|)
        invariant DoAll(View(), acts[i..]) == DoAll(old(View()), acts)
      {
        assert acts[i..][1..] == acts[i + 1..] && acts[i] in acts;
        match acts[i] {
          case Set(k, seconds) => SetAlarm(k, seconds);
          case Changed(k) => alarms := alarms[k := 0];
        }
        i := i + 1;
      }
      assert acts[i..] == [];
    }

    method RunAlarm(h: Handlers) returns (fired: seq<nat>)
      requires Serves(h, |alarms|)
      modifies this
      ensures (View(), fired) == Pass(old(View()), h)
    {
      nextAlarm := 0;
      fired := [];
      var i := 0;
      assert fired + PassFrom(View(), h, 0).1 == PassFrom(View(), h, 0).1;
      while i < |alarms|
        invariant i <= |alarms| == old(|alarms|)
        invariant ghost var (r, rest) := PassFrom(View(), h, i); (r, fired + rest) == Pass(old(View()), h)
      {
        ghost var c, before := View(), fired;
        assert PassFrom(c, h, i).0 == PassFrom(Visit(c, h, i), h, i + 1).0;
        assert before + ([i as nat] + PassFrom(Visit(c, h, i), h, i + 1).1) == before + [i] + PassFrom(Visit(c, h, i), h, i + 1).1;
        if alarms[i] != 0 {
          if now >= alarms[i] {
            alarms := alarms[i := 0];
            fired := fired + [i];
            Handle(h[i]);
          } else if alarms[i] < nextAlarm || nextAlarm == 0 {
            nextAlarm := alarms[i];
          }
        }
        assert View() == Visit(c, h, i);
        i := i + 1;
      }
      assert fired + [] == fired;
    }

    method CheckAlarms(h: Handlers)
      requires Serves(h, |alarms|)
      modifies this
      ensures View() == Next(old(View()), Main(h))
    {
      if nextAlarm != 0 && nextAlarm <= now {
        var _ := RunAlarm(h);
      }
    }

    method TimeToSleep(sleepSeconds: int, interrupted: bool) returns (sleep: int)
      ensures sleep == Sleep(View(), sleepSeconds, interrupted)
    {
      var closest := TIMEOUT;
      if sleepSeconds != 0 && sleepSeconds < closest { closest := sleepSeconds; }
      if nextAlarm != 0 && nextAlarm > now {
        var toNext := nextAlarm - now;
        if toNext < closest { closest := toNext; }
      }
      sleep := if closest > 0 && !interrupted then closest else 0;
    }
  }
}
