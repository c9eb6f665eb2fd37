/**
  The service table in place: services as objects whose fields are overwritten,
  and the interrupt list as a field of the engine.  Every method is proved to do
  what the functions of `ServiceState` and `Interrupt` say.
 */
module Engine {
  import opened Basics
  import opened Entries
  import opened ServiceState
  import opened Interrupt

  class Service {
    var current: State
    var last: State
    var next: Option<State>
    var lock: nat
    var lastRough: Rough
    var alarm: int
    ghost var settled: bool

    /** A service as it is first set up: in state `first`, unlocked, no alarm. */
    constructor (first: State)
      ensures Value() == Svc(first, first, None, 0, New, 0, true)
    {
      current, last, next, lock := first, first, None, 0;
      lastRough, alarm, settled := New, 0, true;
    }

    ghost function Value(): (r: Svc)
      reads this
    {
      Svc(current, last, next, lock, lastRough, alarm, settled)
    }
  }

  class Engine {
    ghost const services: set<Service>
    var queue: seq<Service>

    constructor (ghost services: set<Service>)
      ensures this.services == services && queue == []
    {
      this.services := services;
      queue := [];
    }

    ghost function View(): (y: Sys<Service>)
      reads this, services
    {
      Sys(map s | s in services :: s.Value(), queue)
    }

    method Lock(s: Service)
      requires s in services
      modifies s
      ensures View() == DoLock(old(View()), s)
    {
      s.lock := s.lock + 1;
      assert View().svc == old(View().svc)[s := s.Value()];
    }

    method Unlock(s: Service) returns (changed: bool)
      requires s in services
      modifies this, s
      ensures (View(), changed) == DoUnlock(old(View()), s)
    {
      if s.lock > 0 {
        s.lock := s.lock - 1;
        if s.lock > 0 {
          assert View().svc == old(View().svc)[s := s.Value()];
          return false;
        }
      }
      if s.next.None? {
        assert View().svc == old(View().svc)[s := s.Value()];
        return false;
      }
      s.last := s.current;
      if s.lastRough != s.current.rough { s.lastRough := s.current.rough; }
      s.alarm := 0;
      s.current := s.next.value;
      s.settled := false;
      if s !in queue { queue := [s] + queue; }
      s.next := None;
      assert View().svc == old(View().svc)[s := s.Value()];
      return true;
    }

    method Mark(s: Service, st: State) returns (accepted: bool)
      requires s in services
      modifies this, s
      ensures (View(), accepted) == DoMark(old(View()), s, st)
    {
      if s.lock > 0 && s.next.Some? { return false; }
      if s.current == st {
        s.next := None;
        assert View().svc == old(View().svc)[s := s.Value()];
        return true;
      }
      s.next := Some(st);
      assert View() == old(View()).(svc := old(View().svc)[s := s.Value()]);
      if s.lock == 0 { var _ := Unlock(s); }
      return true;
    }

    method Perform(a: Action<Service>)
      requires a.k in services
      modifies this, a.k
      ensures View() == Do(old(View()), a)
    {
      match a {
        case Mark(s, st) => var _ := Mark(s, st);
        case Lock(s) => Lock(s);
        case Unlock(s) => var _ := Unlock(s);
      }
    }

    /** A hook: the calls it makes, one after the other. */
    method RunHook(acts: seq<Action<Service>>)
      requires AllKnown(View(), acts)
      modifies this, services
      ensures View() == DoAll(old(View()), acts)
    {
      var i := 0;
      while i < |acts|
        invariant 0 <= i <= |acts|
        invariant AllKnown(View(), acts[i..])
        invariant DoAll(View(), acts[i..]) == DoAll(old(View()), acts)
      {
        DoAllUnfold(View(), acts[i..]);
        assert acts[i..][1..] == acts[i + 1..];
        Perform(acts[i]);
        i := i + 1;
      }
    }

    /** Lock, send the event, unlock. */
    method Announced(s: Service, acts: seq<Action<Service>>) returns (changed: bool)
      requires s in services && AllKnown(View(), acts)
      modifies this, services
      ensures (View(), changed) == Announce(old(View()), s, acts)
    {
      LockedKnown(View(), s, acts);
      Lock(s);
      RunHook(acts);
      changed := Unlock(s);
    }

    /** handle() for one service; `h` is what the hooks do while it runs, and `ran` is which
        of them did. */
    method HandleOne(s: Service, h: Hooks<Service>) returns (ghost ran: seq<Hook>)
      requires s in services && HooksKnown(View(), h)
      modifies this, services
      ensures View() == Handle(old(View()), s, h)
      ensures ran == HooksRun(old(View()), s, h)
    {
      ghost var y := View();
      HooksRunInSteps(y, s, h);
      var state := s.current;
      var changed := Announced(s, h.onState);
      ran := [OnState];
      if changed { return; }
      HooksMono(y, View(), h);
      ghost var more;
      var abort;
      abort, more := RoughChanged(s, state, h);
      ran := ran + more;
      if abort { return; }
      HooksMono(y, View(), h);
      ghost var init := Initialise(s, h);
      ran := ran + init;
    }

    method RoughChanged(s: Service, state: State, h: Hooks<Service>) returns (abort: bool, ghost ran: seq<Hook>)
      requires s in services && HooksKnown(View(), h)
      modifies this, services
      ensures (View(), abort) == RoughChange(old(View()), s, state, h)
      ensures ran == RoughHooks(old(View()), s, state, h)
    {
      ran := [];
      if s.lastRough == state.rough { return false, []; }
      ghost var y := View();
      abort := Announced(s, h.onRough);
      ran := [OnRough];
      if abort { return; }
      assert View().svc[s].current == s.current;
      if HasFollowUp(s.current.rough) {
        KnownMono(y, View(), h.followUp);
        RunHook(h.followUp);
        ran := ran + [FollowUp];
      }
    }

    method Initialise(s: Service, h: Hooks<Service>) returns (ghost ran: seq<Hook>)
      requires s in services && HooksKnown(View(), h)
      modifies this, services
      ensures View() == RunInit(old(View()), s, h)
      ensures ran == InitHooks(true, old(s.current.hasInit))
    {
      ghost var y := View();
      s.settled := true;
      ran := [Reached];
      assert View().svc == old(View().svc)[s := s.Value()];
      KnownMono(y, Settle(y, s), h.onInit);
      if s.current.hasInit {
        RunHook(h.onInit);
        ran := ran + [OnInit];
      }
    }

    method UnlinkOldest() returns (s: Service)
      requires queue != []
      modifies this`queue
      ensures s == old(queue)[|old(queue)| - 1] && View() == Pop(old(View()))
    {
      s := queue[|queue| - 1];
      queue := queue[..|queue| - 1];
      assert View().svc == old(View().svc);
    }

    /** Unlink the oldest service and handle it. */
    method HandleOldest(script: seq<Hooks<Service>>)
      requires Inv(View(), {}) && queue != [] && ScriptKnown(View(), script)
      modifies this, services
      ensures View() == Turn(old(View()), script)
    {
      TurnReady(View(), script);
      var s := UnlinkOldest();
      ghost var _ := HandleOne(s, First(script));
    }

    /** Drain the list.  `script` is what the hooks do in each handled service; hooks that
        run after it is used up change nothing. */
    method DrainAll(script: seq<Hooks<Service>>) returns (interrupt: bool)
      requires Inv(View(), {}) && ScriptKnown(View(), script)
      modifies this, services
      ensures View() == Drain(old(View()), script).0
      ensures Inv(View(), {})
      ensures interrupt == (old(queue) != [])
    {
      interrupt := queue != [];
      var todo := script;
      var atHead := queue == [];
      while !atHead
        invariant Inv(View(), {}) && ScriptKnown(View(), todo)
        invariant !atHead ==> queue != []
        invariant (if atHead then View() else Drain(View(), todo).0) == Drain(old(View()), script).0
        decreases !atHead, |todo|, |queue|
      {
        atHead := |queue| == 1;
        HandleOldest(todo);
        todo := Rest(todo);
      }
    }

    /** initng_interrupt: the drain and, if it handled anything, the interrupt handlers of the
        services' states, which make the calls `handlers`. */
    method Interrupts(script: seq<Hooks<Service>>, handlers: seq<Action<Service>>) returns (interrupt: bool)
      requires Inv(View(), {}) && ScriptKnown(View(), script) && AllKnown(View(), handlers)
      modifies this, services
      ensures Inv(View(), {})
      ensures interrupt == (old(queue) != [])
      ensures var z := Drain(old(View()), script).0;
              AllKnown(z, handlers) && View() == if interrupt then DoAll(z, handlers) else z
    {
      DrainIsFifo(View(), script);
      interrupt := DrainAll(script);
      if interrupt {
        DoAllKeepsInv(View(), handlers, {});
        RunHook(handlers);
      }
    }
  }
}
