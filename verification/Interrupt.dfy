/**
  Draining the interrupt list: `handle` locks a service, announces the change to
  hooks that may change any service, unlocks it, and runs the init hook of its
  state; the drain walks the list oldest first with the next node fetched early.
 */
module Interrupt {
  import opened Basics
  import opened Entries
  import opened ServiceState

  /** What the hooks of one `handle` call do: on the state event, on the rough
      state event, in the rough state's own follow-up, and in the init hook. */
  datatype Hooks<K> = Hooks(
    onState: seq<Action<K>>, onRough: seq<Action<K>>,
    followUp: seq<Action<K>>, onInit: seq<Action<K>>)

  predicate HooksKnown<K>(y: Sys<K>, h: Hooks<K>) {
    && AllKnown(y, h.onState) && AllKnown(y, h.onRough)
    && AllKnown(y, h.followUp) && AllKnown(y, h.onInit)
  }

  predicate ScriptKnown<K>(y: Sys<K>, script: seq<Hooks<K>>) {
    forall i | 0 <= i < |script| :: HooksKnown(y, script[i])
  }

  /** The states whose rough change has a follow-up that may mark services. */
  predicate HasFollowUp(r: Rough) {
    r == Failed || r == Up || r == Down
  }

  function Settle<K>(y: Sys<K>, k: K): (r: Sys<K>)
    requires k in y.svc
  {
    y.(svc := y.svc[k := y.svc[k].(settled := true)])
  }

  /** One event sent under the lock; the flag says that the unlock committed. */
  function Announce<K(==)>(y: Sys<K>, k: K, acts: seq<Action<K>>): (r: (Sys<K>, bool))
    requires k in y.svc && AllKnown(y, acts)
    ensures r.0.svc.Keys == y.svc.Keys
  {
    LockedKnown(y, k, acts);
    DoUnlock(DoAll(DoLock(y, k), acts), k)
  }

  function RoughChange<K(==)>(y: Sys<K>, k: K, state: State, h: Hooks<K>): (r: (Sys<K>, bool))
    requires k in y.svc && HooksKnown(y, h)
    ensures r.0.svc.Keys == y.svc.Keys
  {
    if y.svc[k].lastRough == state.rough then (y, false)
    else
      var (y1, changed) := Announce(y, k, h.onRough);
      if changed then (y1, true)
      else if HasFollowUp(y1.svc[k].current.rough) then
        KnownMono(y, y1, h.followUp);
        (DoAll(y1, h.followUp), false)
      else (y1, false)
  }

  function RunInit<K(==)>(y: Sys<K>, k: K, h: Hooks<K>): (r: Sys<K>)
    requires k in y.svc && HooksKnown(y, h)
    ensures r.svc.Keys == y.svc.Keys
  {
    KnownMono(y, Settle(y, k), h.onInit);
    if y.svc[k].current.hasInit then DoAll(Settle(y, k), h.onInit) else Settle(y, k)
  }

  function Handle<K(==)>(y: Sys<K>, k: K, h: Hooks<K>): (r: Sys<K>)
    requires k in y.svc && HooksKnown(y, h)
    ensures r.svc.Keys == y.svc.Keys
  {
    var (y1, changed) := Announce(y, k, h.onState);
    if changed then y1
    else
      HooksMono(y, y1, h);
      var (y2, changed2) := RoughChange(y1, k, y.svc[k].current, h);
      if changed2 then y2
      else HooksMono(y, y2, h); RunInit(y2, k, h)
  }

  lemma KnownMono<K>(y: Sys<K>, z: Sys<K>, acts: seq<Action<K>>)
    requires AllKnown(y, acts) && y.svc.Keys == z.svc.Keys
    ensures AllKnown(z, acts)
  {
    forall i | 0 <= i < |acts| ensures Known(z, acts[i]) { assert Known(y, acts[i]); }
  }

  lemma HooksMono<K>(y: Sys<K>, z: Sys<K>, h: Hooks<K>)
    requires HooksKnown(y, h) && y.svc.Keys == z.svc.Keys
    ensures HooksKnown(z, h)
  {
    KnownMono(y, z, h.onState); KnownMono(y, z, h.onRough);
    KnownMono(y, z, h.followUp); KnownMono(y, z, h.onInit);
  }

  // ------------------------------------------------------- which hooks handle runs

  /** The steps of `handle`; `Reached` is the arrival at the init step. */
  datatype Hook = OnState | OnRough | FollowUp | Reached | OnInit

  function RunOne<K(==)>(y: Sys<K>, k: K, h: Hooks<K>, hook: Hook): (r: Sys<K>)
    requires k in y.svc && HooksKnown(y, h)
    ensures r.svc.Keys == y.svc.Keys
  {
    match hook
    case OnState => Announce(y, k, h.onState).0
    case OnRough => Announce(y, k, h.onRough).0
    case FollowUp => DoAll(y, h.followUp)
    case Reached => Settle(y, k)
    case OnInit => DoAll(y, h.onInit)
  }

  function Replay<K(==)>(y: Sys<K>, k: K, h: Hooks<K>, hooks: seq<Hook>): (r: Sys<K>)
    requires k in y.svc && HooksKnown(y, h)
    ensures r.svc.Keys == y.svc.Keys
    decreases |hooks|
  {
    if hooks == [] then y
    else
      HooksMono(y, RunOne(y, k, h, hooks[0]), h);
      Replay(RunOne(y, k, h, hooks[0]), k, h, hooks[1..])
  }

  /** The rough event is sent: the state event committed nothing, and the rough state before
      the last commit was another. */
  predicate SendsRough<K(==)>(y: Sys<K>, k: K, h: Hooks<K>)
    requires k in y.svc && HooksKnown(y, h)
  {
    var (y1, changed) := Announce(y, k, h.onState);
    !changed && y1.svc[k].lastRough != y.svc[k].current.rough
  }

  /** The table after the events, and whether one of them ended in a commit. */
  function AfterEvents<K(==)>(y: Sys<K>, k: K, h: Hooks<K>): (r: (Sys<K>, bool))
    requires k in y.svc && HooksKnown(y, h)
    ensures r.0.svc.Keys == y.svc.Keys
  {
    var (y1, changed) := Announce(y, k, h.onState);
    if SendsRough(y, k, h) then
      KnownMono(y, y1, h.onRough);
      Announce(y1, k, h.onRough)
    else (y1, changed)
  }

  predicate FollowsUp<K(==)>(y: Sys<K>, k: K, h: Hooks<K>)
    requires k in y.svc && HooksKnown(y, h)
  {
    var (y2, changed) := AfterEvents(y, k, h);
    SendsRough(y, k, h) && !changed && y2.svc[k].current.rough in {Failed, Up, Down}
  }

  /** The table when the init step is reached. */
  function BeforeInit<K(==)>(y: Sys<K>, k: K, h: Hooks<K>): (r: Sys<K>)
    requires k in y.svc && HooksKnown(y, h)
    ensures r.svc.Keys == y.svc.Keys
  {
    var y2 := AfterEvents(y, k, h).0;
    if FollowsUp(y, k, h) then
      KnownMono(y, y2, h.followUp);
      DoAll(y2, h.followUp)
    else y2
  }

  function If(b: bool, hook: Hook): (r: seq<Hook>) { if b then [hook] else [] }

  /** What runs, in order and once each: the state event always; the rough event and the
      follow-up as above; and, unless an event ended in a commit, the init step with the init
      hook of the state the service then has. */
  function HooksRun<K(==)>(y: Sys<K>, k: K, h: Hooks<K>): (r: seq<Hook>)
    requires k in y.svc && HooksKnown(y, h)
  {
    EventHooks(y, k, h) + InitHooks(!AfterEvents(y, k, h).1, BeforeInit(y, k, h).svc[k].current.hasInit)
  }

  lemma {:induction false} ReplayConcat<K>(y: Sys<K>, k: K, h: Hooks<K>, a: seq<Hook>, b: seq<Hook>)
    requires k in y.svc && HooksKnown(y, h) && HooksKnown(Replay(y, k, h, a), h)
    ensures Replay(y, k, h, a + b) == Replay(Replay(y, k, h, a), k, h, b)
    decreases |a|
  {
    if a == [] {
      assert a + b == b;
    } else {
      HooksMono(y, RunOne(y, k, h, a[0]), h);
      assert (a + b)[1..] == a[1..] + b && (a + b)[0] == a[0];
      ReplayConcat(RunOne(y, k, h, a[0]), k, h, a[1..], b);
    }
  }

  lemma ReplayIf<K>(y: Sys<K>, k: K, h: Hooks<K>, a: seq<Hook>, b: bool, hook: Hook)
    requires k in y.svc && HooksKnown(y, h) && HooksKnown(Replay(y, k, h, a), h)
    ensures Replay(y, k, h, a + If(b, hook)) ==
            if b then RunOne(Replay(y, k, h, a), k, h, hook) else Replay(y, k, h, a)
  {
    var z := Replay(y, k, h, a);
    ReplayConcat(y, k, h, a, If(b, hook));
    if b {
      HooksMono(z, RunOne(z, k, h, hook), h);
      assert [hook][1..] == [];
      assert Replay(RunOne(z, k, h, hook), k, h, []) == RunOne(z, k, h, hook);
    }
  }

  /** The rough event and its follow-up, as the second part of `handle` runs them. */
  function RoughHooks<K(==)>(y: Sys<K>, k: K, state: State, h: Hooks<K>): (r: seq<Hook>)
    requires k in y.svc && HooksKnown(y, h)
  {
    if y.svc[k].lastRough == state.rough then []
    else
      var (y1, changed) := Announce(y, k, h.onRough);
      [OnRough] + If(!changed && y1.svc[k].current.rough in {Failed, Up, Down}, FollowUp)
  }

  /** Everything before the init step. */
  function EventHooks<K(==)>(y: Sys<K>, k: K, h: Hooks<K>): (r: seq<Hook>)
    requires k in y.svc && HooksKnown(y, h)
  {
    [OnState] + If(SendsRough(y, k, h), OnRough) + If(FollowsUp(y, k, h), FollowUp)
  }

  lemma ReplayEvents<K>(y: Sys<K>, k: K, h: Hooks<K>)
    requires k in y.svc && HooksKnown(y, h)
    ensures Replay(y, k, h, EventHooks(y, k, h)) == BeforeInit(y, k, h)
  {
    var a1 := [] + If(true, OnState);
    var a2 := a1 + If(SendsRough(y, k, h), OnRough);
    ReplayIf(y, k, h, [], true, OnState);
    HooksMono(y, Replay(y, k, h, a1), h);
    ReplayIf(y, k, h, a1, SendsRough(y, k, h), OnRough);
    HooksMono(y, Replay(y, k, h, a2), h);
    ReplayIf(y, k, h, a2, FollowsUp(y, k, h), FollowUp);
    assert a1 == [OnState];
  }

  function InitHooks(reached: bool, hasInit: bool): (r: seq<Hook>) {
    if !reached then [] else [Reached] + If(hasInit, OnInit)
  }

  lemma ReplayInit<K>(y: Sys<K>, k: K, h: Hooks<K>, hasInit: bool)
    requires k in y.svc && HooksKnown(y, h) && HooksKnown(Settle(y, k), h)
    ensures Replay(y, k, h, InitHooks(true, hasInit)) ==
            if hasInit then DoAll(Settle(y, k), h.onInit) else Settle(y, k)
  {
    var one := [] + If(true, Reached);
    assert one == [Reached];
    ReplayIf(y, k, h, [], true, Reached);
    ReplayIf(y, k, h, one, hasInit, OnInit);
  }

  /** `handle` does exactly that. */
  lemma HandleRuns<K>(y: Sys<K>, k: K, h: Hooks<K>)
    requires k in y.svc && HooksKnown(y, h)
    ensures Handle(y, k, h) == Replay(y, k, h, HooksRun(y, k, h))
  {
    var a, z := EventHooks(y, k, h), BeforeInit(y, k, h);
    var committed := AfterEvents(y, k, h).1;
    ReplayEvents(y, k, h);
    HandleInSteps(y, k, h);
    ReplayConcat(y, k, h, a, InitHooks(!committed, z.svc[k].current.hasInit));
    if !committed {
      HooksMono(z, Settle(z, k), h);
      ReplayInit(z, k, h, z.svc[k].current.hasInit);
    }
  }

  /** The same, part by part. */
  lemma HooksRunInSteps<K>(y: Sys<K>, k: K, h: Hooks<K>)
    requires k in y.svc && HooksKnown(y, h)
    ensures var (y1, changed) := Announce(y, k, h.onState);
            if changed then HooksRun(y, k, h) == [OnState]
            else && HooksKnown(y1, h)
                 && var (y2, abort) := RoughChange(y1, k, y.svc[k].current, h);
                    HooksRun(y, k, h) == [OnState] + RoughHooks(y1, k, y.svc[k].current, h) +
                                         InitHooks(!abort, y2.svc[k].current.hasInit)
  {
    HooksMono(y, Announce(y, k, h.onState).0, h);
  }

  lemma HandleInSteps<K>(y: Sys<K>, k: K, h: Hooks<K>)
    requires k in y.svc && HooksKnown(y, h)
    ensures HooksKnown(BeforeInit(y, k, h), h)
    ensures var z := BeforeInit(y, k, h);
            AllKnown(Settle(z, k), h.onInit) &&
            Handle(y, k, h) == if AfterEvents(y, k, h).1 then AfterEvents(y, k, h).0
                               else if z.svc[k].current.hasInit then DoAll(Settle(z, k), h.onInit)
                               else Settle(z, k)
  {
    var y1 := Announce(y, k, h.onState).0;
    HooksMono(y, y1, h);
    HooksMono(y, BeforeInit(y, k, h), h);
    KnownMono(BeforeInit(y, k, h), Settle(BeforeInit(y, k, h), k), h.onInit);
  }

  /** Only the arrival at the init step settles a service, and only the one that is handled. */
  lemma OnlyReachedSettles<K>(y: Sys<K>, k: K, h: Hooks<K>, j: K)
    requires k in y.svc && HooksKnown(y, h) && j in y.svc && !y.svc[j].settled && Handle(y, k, h).svc[j].settled
    ensures j == k && Reached in HooksRun(y, k, h)
  {
    HandleInSteps(y, k, h);
    EventsNeverSettle(y, k, h, j);
    if !AfterEvents(y, k, h).1 {
      assert HooksRun(y, k, h)[|EventHooks(y, k, h)|] == Reached;
      var z := Settle(BeforeInit(y, k, h), k);
      if j != k && z.svc[k].current.hasInit { DoAllNeverSettles(z, h.onInit, j); }
    }
  }

  lemma AnnounceNeverSettles<K>(y: Sys<K>, k: K, acts: seq<Action<K>>, j: K)
    requires k in y.svc && AllKnown(y, acts) && j in y.svc && !y.svc[j].settled
    ensures !Announce(y, k, acts).0.svc[j].settled
  {
    LockedKnown(y, k, acts);
    DoAllNeverSettles(DoLock(y, k), acts, j);
  }

  lemma EventsNeverSettle<K>(y: Sys<K>, k: K, h: Hooks<K>, j: K)
    requires k in y.svc && HooksKnown(y, h) && j in y.svc && !y.svc[j].settled
    ensures !AfterEvents(y, k, h).0.svc[j].settled && !BeforeInit(y, k, h).svc[j].settled
  {
    var y1 := Announce(y, k, h.onState).0;
    HooksMono(y, y1, h);
    AnnounceNeverSettles(y, k, h.onState, j);
    if SendsRough(y, k, h) { AnnounceNeverSettles(y1, k, h.onRough, j); }
    var y2 := AfterEvents(y, k, h).0;
    HooksMono(y, y2, h);
    if FollowsUp(y, k, h) { DoAllNeverSettles(y2, h.followUp, j); }
  }

  /** So a service whose events are silent, and whose init hook marks it `b`, is in `b` after
      `handle` if and only if its state has an init hook or was `b` already. */
  lemma InitHookMoves<K>(y: Sys<K>, k: K, b: State)
    requires k in y.svc && y.svc[k].lock == 0 && y.svc[k].next.None?
    ensures HooksKnown(y, Hooks([], [], [], [Mark(k, b)]))
    ensures Handle(y, k, Hooks([], [], [], [Mark(k, b)])).svc[k].current == b <==>
            y.svc[k].current.hasInit || y.svc[k].current == b
  {
    var h := Hooks([], [], [], [Mark(k, b)]);
    assert HooksKnown(y, h);
    SilentAnnounce(y, k);
    HandleInSteps(y, k, h);
    var z := Settle(y, k);
    assert AfterEvents(y, k, h) == (y, false) && BeforeInit(y, k, h) == y;
    if y.svc[k].current.hasInit {
      DoAllUnfold(z, h.onInit);
      assert h.onInit[1..] == [];
      assert DoAll(Do(z, Mark(k, b)), []) == Do(z, Mark(k, b));
      if y.svc[k].current != b { MarkUnlockedCommits(z, k, b); }
    }
  }

  lemma SilentAnnounce<K>(y: Sys<K>, k: K)
    requires k in y.svc && y.svc[k].lock == 0 && y.svc[k].next.None?
    ensures AllKnown(y, []) && Announce(y, k, []) == (y, false)
  {
    assert DoUnlock(DoLock(y, k), k).0.svc == y.svc;
  }

  /** And a state event that marks it `b` moves it there, puts it on the list again, and no
      init hook runs. */
  lemma EventMoves<K>(y: Sys<K>, k: K, b: State, init: seq<Action<K>>)
    requires k in y.svc && y.svc[k].lock == 0 && y.svc[k].next.None? && y.svc[k].current != b && AllKnown(y, init)
    ensures HooksKnown(y, Hooks([Mark(k, b)], [], [], init))
    ensures var h := Hooks([Mark(k, b)], [], [], init);
            && HooksRun(y, k, h) == [OnState]
            && Handle(y, k, h).svc[k].current == b && k in Handle(y, k, h).queue
  {
    var h := Hooks([Mark(k, b)], [], [], init);
    assert HooksKnown(y, h);
    LockedKnown(y, k, h.onState);
    var y0 := DoLock(y, k);
    DoAllUnfold(y0, h.onState);
    assert h.onState[1..] == [];
    assert DoAll(Do(y0, Mark(k, b)), []) == Do(y0, Mark(k, b));
  }

  // ------------------------------------------------------ handle keeps the order

  /** Hooks only add to the front of the list: what was queued stays in place. */
  predicate Extends<K(==)>(q: seq<K>, r: seq<K>) {
    |q| <= |r| && r == r[..|r| - |q|] + q
  }

  lemma ExtendsTrans<K>(a: seq<K>, b: seq<K>, c: seq<K>)
    requires Extends(a, b) && Extends(b, c)
    ensures Extends(a, c)
  {
    var f, g := b[..|b| - |a|], c[..|c| - |b|];
    assert c == (g + f) + a;
    assert c[..|c| - |a|] == g + f;
  }

  lemma ExtendsSelf<K>(q: seq<K>)
    ensures Extends(q, q)
  {
    assert q == [] + q;
  }

  lemma DoExtends<K>(y: Sys<K>, a: Action<K>)
    requires Known(y, a)
    ensures Extends(y.queue, Do(y, a).queue)
  {
    if Do(y, a).queue == y.queue { ExtendsSelf(y.queue); }
    else { assert ([a.k] + y.queue)[..1] == [a.k]; }
  }

  lemma {:induction false} DoAllExtends<K>(y: Sys<K>, acts: seq<Action<K>>)
    requires AllKnown(y, acts)
    ensures Extends(y.queue, DoAll(y, acts).queue)
    decreases |acts|
  {
    if acts == [] {
      ExtendsSelf(y.queue);
    } else {
      assert Known(y, acts[0]);
      var y1 := Do(y, acts[0]);
      DoExtends(y, acts[0]);
      DoAllExtends(y1, acts[1..]);
      ExtendsTrans(y.queue, y1.queue, DoAll(y1, acts[1..]).queue);
    }
  }

  lemma QueuedIsNotBusy<K>(y: Sys<K>, k: K)
    requires Inv(y, {k}) && k in y.queue
    ensures Inv(y, {})
  {
  }

  lemma UnlockKeeps<K>(y: Sys<K>, k: K)
    requires Inv(y, {k}) && k in y.svc
    ensures Extends(y.queue, DoUnlock(y, k).0.queue)
    ensures Inv(DoUnlock(y, k).0, {k})
    ensures DoUnlock(y, k).1 ==> Inv(DoUnlock(y, k).0, {})
  {
    DoKeepsInv(y, Unlock(k), {k});
    DoExtends(y, Unlock(k));
    assert DoUnlock(y, k).0 == Do(y, Unlock(k));
    if DoUnlock(y, k).1 {
      EnqueueKeeps(y.queue, k);
      QueuedIsNotBusy(DoUnlock(y, k).0, k);
    }
  }

  lemma AnnounceKeeps<K>(y: Sys<K>, k: K, acts: seq<Action<K>>)
    requires Inv(y, {k}) && k in y.svc && AllKnown(y, acts)
    ensures var (r, changed) := Announce(y, k, acts);
            && Extends(y.queue, r.queue)
            && (if changed then Inv(r, {}) else Inv(r, {k}))
  {
    LockedKnown(y, k, acts);
    var y0 := DoLock(y, k);
    DoKeepsInv(y, Lock(k), {k});
    DoAllKeepsInv(y0, acts, {k});
    DoAllExtends(y0, acts);
    var y1 := DoAll(y0, acts);
    UnlockKeeps(y1, k);
    ExtendsTrans(y.queue, y1.queue, DoUnlock(y1, k).0.queue);
  }

  lemma RoughChangeKeeps<K>(y: Sys<K>, k: K, state: State, h: Hooks<K>)
    requires Inv(y, {k}) && k in y.svc && HooksKnown(y, h)
    ensures var (r, changed) := RoughChange(y, k, state, h);
            && Extends(y.queue, r.queue)
            && (if changed then Inv(r, {}) else Inv(r, {k}))
  {
    if y.svc[k].lastRough == state.rough {
      ExtendsSelf(y.queue);
    } else {
      var (y1, changed) := Announce(y, k, h.onRough);
      AnnounceKeeps(y, k, h.onRough);
      if !changed && HasFollowUp(y1.svc[k].current.rough) {
        KnownMono(y, y1, h.followUp);
        DoAllKeepsInv(y1, h.followUp, {k});
        DoAllExtends(y1, h.followUp);
        ExtendsTrans(y.queue, y1.queue, DoAll(y1, h.followUp).queue);
      }
    }
  }

  lemma RunInitKeeps<K>(y: Sys<K>, k: K, h: Hooks<K>)
    requires Inv(y, {k}) && k in y.svc && HooksKnown(y, h)
    ensures Inv(RunInit(y, k, h), {}) && Extends(y.queue, RunInit(y, k, h).queue)
  {
    var y1 := Settle(y, k);
    KnownMono(y, y1, h.onInit);
    assert Inv(y1, {});
    DoAllKeepsInv(y1, h.onInit, {});
    DoAllExtends(y1, h.onInit);
    ExtendsSelf(y.queue);
  }

  /** Whatever the hooks do, when `handle` returns the service has either had the
      init step of its present state or is queued again; every other service is
      as well off as before, and the rest of the list is undisturbed. */
  lemma HandleKeeps<K>(y: Sys<K>, k: K, h: Hooks<K>)
    requires Inv(y, {k}) && k in y.svc && HooksKnown(y, h)
    ensures Inv(Handle(y, k, h), {}) && Extends(y.queue, Handle(y, k, h).queue)
  {
    var (y1, changed) := Announce(y, k, h.onState);
    AnnounceKeeps(y, k, h.onState);
    if !changed {
      HooksMono(y, y1, h);
      var (y2, changed2) := RoughChange(y1, k, y.svc[k].current, h);
      RoughChangeKeeps(y1, k, y.svc[k].current, h);
      ExtendsTrans(y.queue, y1.queue, y2.queue);
      if !changed2 {
        HooksMono(y, y2, h);
        RunInitKeeps(y2, k, h);
        ExtendsTrans(y.queue, y2.queue, RunInit(y2, k, h).queue);
      }
    }
  }

  // ---------------------------------------------------------------- the drain

  function NoHooks<K>(): (r: Hooks<K>) { Hooks([], [], [], []) }

  function First<K>(script: seq<Hooks<K>>): (r: Hooks<K>) {
    if script == [] then NoHooks() else script[0]
  }

  function Rest<K>(script: seq<Hooks<K>>): (r: seq<Hooks<K>>) {
    if script == [] then [] else script[1..]
  }

  function Pop<K>(y: Sys<K>): (r: Sys<K>)
    requires y.queue != []
  {
    y.(queue := y.queue[..|y.queue| - 1])
  }

  lemma PopKeeps<K>(y: Sys<K>)
    requires Inv(y, {}) && y.queue != []
    ensures Inv(Pop(y), {y.queue[|y.queue| - 1]})
    ensures y.queue[|y.queue| - 1] !in Pop(y).queue
  {
    var n := |y.queue| - 1;
    forall k | k in y.svc ensures y.svc[k].settled || k in Pop(y).queue || k in {y.queue[n]} {
      if !y.svc[k].settled {
        var i :| 0 <= i < |y.queue| && y.queue[i] == k;
        if i < n { assert Pop(y).queue[i] == k; }
      }
    }
  }

  lemma QuietHandle<K>(y: Sys<K>, k: K)
    requires Inv(y, {k}) && k in y.svc
    ensures HooksKnown(y, NoHooks())
    ensures Handle(y, k, NoHooks()).queue == y.queue
    ensures Handle(y, k, NoHooks()).svc == y.svc[k := y.svc[k].(settled := true)]
  {
    assert SvcOk(y.svc[k]);
    assert Announce(y, k, []).0.svc == y.svc;
    assert !Announce(y, k, []).1;
  }

  lemma ScriptMono<K>(y: Sys<K>, z: Sys<K>, script: seq<Hooks<K>>)
    requires ScriptKnown(y, script) && y.svc.Keys == z.svc.Keys
    ensures HooksKnown(z, First(script)) && ScriptKnown(z, Rest(script))
  {
    forall i | 0 <= i < |script| ensures HooksKnown(z, script[i]) { HooksMono(y, z, script[i]); }
  }

  lemma TurnReady<K>(y: Sys<K>, script: seq<Hooks<K>>)
    requires Inv(y, {}) && y.queue != [] && ScriptKnown(y, script)
    ensures y.queue[|y.queue| - 1] in y.svc && HooksKnown(Pop(y), First(script))
    ensures Turn(y, script) == Handle(Pop(y), y.queue[|y.queue| - 1], First(script))
  {
    ScriptMono(y, Pop(y), script);
  }

  /** A turn unlinks the oldest service and runs the hooks that the script has for it. */
  lemma TurnRuns<K>(y: Sys<K>, script: seq<Hooks<K>>)
    requires Inv(y, {}) && y.queue != [] && ScriptKnown(y, script) && script != []
    ensures var k, z := y.queue[|y.queue| - 1], Sys(y.svc, y.queue[..|y.queue| - 1]);
            && k in y.svc && HooksKnown(z, script[0])
            && Turn(y, script) == Replay(z, k, script[0], HooksRun(z, k, script[0]))
  {
    TurnReady(y, script);
    HandleRuns(Pop(y), y.queue[|y.queue| - 1], script[0]);
  }

  /** One turn of the loop, with the checks that make the next turn possible. */
  lemma TurnKeeps<K>(y: Sys<K>, script: seq<Hooks<K>>)
    requires Inv(y, {}) && y.queue != [] && ScriptKnown(y, script)
    ensures var k := y.queue[|y.queue| - 1];
            && k in y.svc
            && HooksKnown(Pop(y), First(script))
            && var r := Handle(Pop(y), k, First(script));
            && Inv(r, {})
            && ScriptKnown(r, Rest(script))
            && Extends(Pop(y).queue, r.queue)
            && (script == [] ==> r.queue == Pop(y).queue)
  {
    var k := y.queue[|y.queue| - 1];
    ScriptMono(y, Pop(y), script);
    PopKeeps(y);
    HandleKeeps(Pop(y), k, First(script));
    ScriptMono(y, Handle(Pop(y), k, First(script)), script);
    if script == [] { QuietHandle(Pop(y), k); }
  }

  /** Unlink the oldest entry and handle it. */
  function Turn<K(==)>(y: Sys<K>, script: seq<Hooks<K>>): (r: Sys<K>)
    requires Inv(y, {}) && y.queue != [] && ScriptKnown(y, script)
    ensures Inv(r, {}) && ScriptKnown(r, Rest(script)) && r.svc.Keys == y.svc.Keys
    ensures Extends(y.queue[..|y.queue| - 1], r.queue)
    ensures script == [] ==> r.queue == y.queue[..|y.queue| - 1]
  {
    TurnKeeps(y, script);
    Handle(Pop(y), y.queue[|y.queue| - 1], First(script))
  }

  /** The reverse walk.  It stops after a node whose predecessor was the head when
      it was fetched, even if that node's handler queued more.  `script` holds what
      the hooks do in the first handled services; later hooks change nothing. */
  function Drain<K(==)>(y: Sys<K>, script: seq<Hooks<K>>): (r: (Sys<K>, seq<K>))
    requires Inv(y, {}) && ScriptKnown(y, script)
    decreases |script|, |y.queue|
  {
    if y.queue == [] then (y, [])
    else
      var k := y.queue[|y.queue| - 1];
      var y1 := Turn(y, script);
      if |y.queue| == 1 then (y1, [k])
      else
        var (z, handled) := Drain(y1, Rest(script));
        (z, [k] + handled)
  }

  /** `handled` starts with the whole list, oldest (last) first. */
  predicate OldestFirst<K(==)>(q: seq<K>, handled: seq<K>) {
    && |q| <= |handled|
    && forall i | 0 <= i < |q| :: handled[i] == q[|q| - 1 - i]
  }

  lemma OldestFirstStep<K>(q: seq<K>, q1: seq<K>, handled: seq<K>)
    requires q != [] && Extends(q[..|q| - 1], q1) && OldestFirst(q1, handled)
    ensures OldestFirst(q, [q[|q| - 1]] + handled)
  {
    var n := |q| - 1;
    assert q1 == q1[..|q1| - n] + q[..n];
    forall i | 0 < i <= n ensures ([q[n]] + handled)[i] == q[n - i] {
      assert handled[i - 1] == q1[|q1| - i] == q[..n][n - i];
    }
  }

  /** For every hook behaviour: the drain keeps the invariant with no service left
      inside `handle`, and handles the services queued at its start in the order
      they were queued, before any other. */
  lemma {:induction false} DrainIsFifo<K>(y: Sys<K>, script: seq<Hooks<K>>)
    requires Inv(y, {}) && ScriptKnown(y, script)
    ensures Inv(Drain(y, script).0, {})
    ensures Drain(y, script).0.svc.Keys == y.svc.Keys
    ensures OldestFirst(y.queue, Drain(y, script).1)
    decreases |script|, |y.queue|
  {
    if |y.queue| > 1 {
      var y1 := Turn(y, script);
      DrainIsFifo(y1, Rest(script));
      OldestFirstStep(y.queue, y1.queue, Drain(y1, Rest(script)).1);
    }
  }

  /** Once the hooks have nothing more to say, a drain empties the list and leaves
      every service with the init step of its state done. */
  lemma {:induction false} QuietDrainEmpties<K>(y: Sys<K>)
    requires Inv(y, {})
    ensures Drain(y, []).0.queue == []
    ensures forall k | k in Drain(y, []).0.svc :: Drain(y, []).0.svc[k].settled
    ensures Drain(y, []).0.svc.Keys == y.svc.Keys && forall k | k in y.svc :: Drain(y, []).0.svc[k].current == y.svc[k].current
    decreases |y.queue|
  {
    if y.queue != [] {
      QuietTurn(y);
      if |y.queue| > 1 { QuietDrainEmpties(Turn(y, [])); }
    }
  }

  lemma QuietTurn<K>(y: Sys<K>)
    requires Inv(y, {}) && y.queue != []
    ensures Turn(y, []).svc.Keys == y.svc.Keys && forall k | k in y.svc :: Turn(y, []).svc[k].current == y.svc[k].current
  {
    TurnReady(y, []);
    PopKeeps(y);
    QuietHandle(Pop(y), y.queue[|y.queue| - 1]);
  }

  // ------------------------------------------------------------------ whole runs

  /** Between drains anyone may mark, lock and unlock services. */
  datatype Step<K> = Call(a: Action<K>) | Interrupts(script: seq<Hooks<K>>)

  predicate StepKnown<K>(keys: set<K>, st: Step<K>) {
    match st
    case Call(a) => a.k in keys
    case Interrupts(script) => forall i | 0 <= i < |script| :: HooksWithin(keys, script[i])
  }

  predicate ActsWithin<K>(keys: set<K>, acts: seq<Action<K>>) {
    forall i | 0 <= i < |acts| :: acts[i].k in keys
  }

  predicate HooksWithin<K>(keys: set<K>, h: Hooks<K>) {
    ActsWithin(keys, h.onState) && ActsWithin(keys, h.onRough) &&
    ActsWithin(keys, h.followUp) && ActsWithin(keys, h.onInit)
  }

  lemma WithinKnown<K>(y: Sys<K>, script: seq<Hooks<K>>)
    requires forall i | 0 <= i < |script| :: HooksWithin(y.svc.Keys, script[i])
    ensures ScriptKnown(y, script)
  {
    forall i | 0 <= i < |script| ensures HooksKnown(y, script[i]) {
      var h := script[i];
      assert HooksWithin(y.svc.Keys, h);
    }
  }

  /** All services unlocked with nothing pending and nothing queued. */
  predicate Initial<K(==)>(y: Sys<K>) {
    && y.queue == []
    && forall k | k in y.svc :: y.svc[k].lock == 0 && y.svc[k].next.None? && y.svc[k].settled
  }

  /** The table after `steps`. */
  ghost function After<K(!new)>(y: Sys<K>, steps: seq<Step<K>>): (r: Sys<K>)
    requires Inv(y, {}) && forall i | 0 <= i < |steps| :: StepKnown(y.svc.Keys, steps[i])
    ensures Inv(r, {}) && r.svc.Keys == y.svc.Keys
    decreases |steps|
  {
    if steps == [] then y
    else
      var n := |steps| - 1;
      var y1 := After(y, steps[..n]);
      assert StepKnown(y.svc.Keys, steps[n]);
      match steps[n]
      case Call(a) => DoKeepsInv(y1, a, {}); Do(y1, a)
      case Interrupts(script) =>
        WithinKnown(y1, script); DrainIsFifo(y1, script); Drain(y1, script).0
  }

  lemma AfterSnoc<K(!new)>(y: Sys<K>, steps: seq<Step<K>>, st: Step<K>)
    requires Inv(y, {}) && (forall i | 0 <= i < |steps| :: StepKnown(y.svc.Keys, steps[i])) && StepKnown(y.svc.Keys, st)
    ensures forall i | 0 <= i < |steps| + 1 :: StepKnown(y.svc.Keys, (steps + [st])[i])
    ensures var z := After(y, steps);
            && (st.Call? ==> Known(z, st.a) && After(y, steps + [st]) == Do(z, st.a))
            && (st.Interrupts? ==> ScriptKnown(z, st.script) && After(y, steps + [st]) == Drain(z, st.script).0)
  {
    assert (steps + [st])[..|steps|] == steps;
    if st.Interrupts? { WithinKnown(After(y, steps), st.script); }
  }

  /** After any run, a mark of an unlocked service followed by a drain in which the hooks do
      nothing more leaves the service in that state, the list empty and every service with the
      init step of its state done. */
  lemma MarkIsCarriedOut<K(!new)>(y: Sys<K>, steps: seq<Step<K>>, k: K, b: State)
    requires Initial(y) && k in y.svc
    requires forall i | 0 <= i < |steps| :: StepKnown(y.svc.Keys, steps[i])
    ensures Inv(y, {}) && forall i | 0 <= i < |steps| + 2 :: StepKnown(y.svc.Keys, (steps + [Call(Mark(k, b))] + [Interrupts([])])[i])
    ensures After(y, steps).svc[k].lock == 0 ==>
              var z := After(y, steps + [Call(Mark(k, b))] + [Interrupts([])]);
              z.svc[k].current == b && z.queue == [] && forall j | j in z.svc :: z.svc[j].settled
  {
    assert Inv(y, {});
    AfterSnoc(y, steps, Call(Mark(k, b)));
    AfterSnoc(y, steps + [Call(Mark(k, b))], Interrupts([]));
    var z := After(y, steps);
    if z.svc[k].lock == 0 {
      assert SvcOk(z.svc[k]);
      if z.svc[k].current != b { MarkUnlockedCommits(z, k, b); }
      QuietDrainEmpties(After(y, steps + [Call(Mark(k, b))]));
    }
  }

  /** In every state any run can reach: nothing unlocked is pending, the list has
      no duplicates, and a service that is not waiting on the list has had the
      init step of its present state since it entered it. */
  lemma EveryRunSettles<K(!new)>(y: Sys<K>, steps: seq<Step<K>>, k: K)
    requires Initial(y) && k in y.svc
    requires forall i | 0 <= i < |steps| :: StepKnown(y.svc.Keys, steps[i])
    ensures Inv(y, {})
    ensures var z := After(y, steps);
            && k in z.svc
            && Distinct(z.queue)
            && (z.svc[k].lock == 0 ==> z.svc[k].next.None?)
            && (k !in z.queue ==> z.svc[k].settled)
  {
    assert Inv(y, {});
    var z := After(y, steps);
    assert SvcOk(z.svc[k]);
  }
}
