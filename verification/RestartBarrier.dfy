/**
  The restart barrier.  restart_service flags a running service RESTARTING and
  stops it; restart_restarting clears the flags and starts the flagged services,
  but only once none of them is still stopping.
 */
module RestartBarrier {
  import opened Basics
  import opened Entries
  import opened ServiceState
  import opened StartService
  import Daemon

  const STOP_MARKED := State(5, Stopping, true)
  const STOPPED := State(6, Down, false)
  const WAITING_FOR_START_DEP := State(7, Starting, false)

  predicate Flagged(w: World, t: Name)
    requires Valid(w)
  {
    t in w.info && w.info[t].restarting
  }

  predicate FlagStopping(w: World, t: Name)
    requires Valid(w)
  {
    Flagged(w, t) && RoughOf(w, t) == Stopping
  }

  predicate BatchStopping(w: World)
    requires Valid(w)
  {
    exists t | t in w.info :: FlagStopping(w, t)
  }

  /** The batch is held back by any flagged service that is stopping, and by nothing else. */
  lemma HeldBackIff(w: World)
    requires Valid(w)
    ensures BatchStopping(w) <==>
            exists t | t in w.info :: w.info[t].restarting && w.y.svc[t].current.rough == Stopping
  {
    if t :| t in w.info && w.info[t].restarting && w.y.svc[t].current.rough == Stopping { assert FlagStopping(w, t); }
  }

  function SetFlag(w: World, t: Name, flag: bool): (r: World)
    requires t in w.info
  {
    w.(info := w.info[t := w.info[t].(restarting := flag)])
  }

  // ------------------------------------------------- what a start cannot do

  /** A start, whatever the graph and the locks: a flagged service keeps every
      field, and no service becomes stopping. */
  ghost predicate Harmless(w: World, v: World)
    requires Valid(w)
  {
    && SameFrame(w, v)
    && (forall t | t in w.info && Flagged(w, t) :: v.y.svc[t] == w.y.svc[t])
    && (forall t | t in w.info :: v.y.svc[t].current.rough == Stopping ==> RoughOf(w, t) == Stopping)
  }

  lemma HarmlessTrans(w: World, v: World, u: World)
    requires Valid(w) && Harmless(w, v) && Valid(v) && Harmless(v, u)
    ensures Harmless(w, u)
  {
    forall t | t in w.info && Flagged(w, t) ensures u.y.svc[t] == w.y.svc[t] {
      assert Flagged(v, t);
    }
    forall t | t in w.info && u.y.svc[t].current.rough == Stopping ensures RoughOf(w, t) == Stopping {
      assert RoughOf(v, t) == Stopping;
    }
  }

  lemma MarkHarmless(w: World, s: Name, st: State)
    requires Valid(w) && s in w.y.svc && !Flagged(w, s) && st.rough != Stopping
    ensures Valid(MarkIn(w, s, st)) && Harmless(w, MarkIn(w, s, st))
  {
    var a := w.y.svc[s];
    var y1 := w.y.(svc := w.y.svc[s := a.(next := Some(st))]);
    if a.lock == 0 && a.current != st {
      assert DoUnlock(y1, s).0.svc[s].current == st;
    }
  }

  lemma {:induction false} StartHarmless(w: World, s: Name, rank: map<Name, nat>)
    requires Valid(w) && Ranked(w.info, rank) && s in w.y.svc
    ensures Harmless(w, Start(w, s, rank).w)
    decreases rank[s], 1, 0
  {
    if Gate(w, s) {
      var d := WalkDeps(w, s, 0, rank);
      WalkHarmless(w, s, 0, rank);
      var st := if d.ok then StartMark(d.w.y.svc[s].current) else REQ_NOT_FOUND;
      MarkHarmless(d.w, s, st);
      HarmlessTrans(w, d.w, MarkIn(d.w, s, st));
    }
  }

  lemma {:induction false} WalkHarmless(w: World, s: Name, i: nat, rank: map<Name, nat>)
    requires Valid(w) && Ranked(w.info, rank) && s in w.y.svc && i <= |w.info[s].entries|
    ensures Harmless(w, WalkDeps(w, s, i, rank).w)
    decreases rank[s], 0, |w.info[s].entries| - i
  {
    if i < |w.info[s].entries| {
      var e := w.info[s].entries[i];
      if !IsDep(e) || e.target.value !in w.y.svc || RoughOf(w, e.target.value) != Down {
        if !Blocks(w.info, e) { WalkHarmless(w, s, i + 1, rank); }
      } else {
        assert Falls(w.info, rank, s, e);
        var a := Start(w, e.target.value, rank);
        StartHarmless(w, e.target.value, rank);
        WalkHarmless(a.w, s, i + 1, rank);
        HarmlessTrans(w, a.w, WalkDeps(a.w, s, i + 1, rank).w);
      }
    }
  }

  // --------------------------------------------------------------- the barrier

  lemma FlagKeepsRanks(w: World, t: Name, flag: bool, rank: map<Name, nat>)
    requires Valid(w) && t in w.info && Ranked(w.info, rank)
    ensures Valid(SetFlag(w, t, flag)) && Ranked(SetFlag(w, t, flag).info, rank)
  {
    var v := SetFlag(w, t, flag);
    forall s, i | s in v.info && 0 <= i < |v.info[s].entries|
      ensures Falls(v.info, rank, s, v.info[s].entries[i])
    {
      assert Falls(w.info, rank, s, w.info[s].entries[i]);
    }
  }

  /** The second loop's work on one service. */
  ghost function RestartIf(w: World, s: Name, rank: map<Name, nat>): (v: World)
    requires Valid(w) && Ranked(w.info, rank) && s in w.info
    ensures Valid(v) && v.info.Keys == w.info.Keys && Ranked(v.info, rank)
  {
    FlagKeepsRanks(w, s, false, rank);
    if RoughOf(w, s) == Down && Flagged(w, s) then Start(SetFlag(w, s, false), s, rank).w else w
  }

  /** The second loop over the services of the database, from `i` on. */
  ghost function RestartFrom(w: World, db: seq<Name>, i: nat, rank: map<Name, nat>): (v: World)
    requires Valid(w) && Ranked(w.info, rank) && i <= |db|
    requires forall k | 0 <= k < |db| :: db[k] in w.info
    ensures Valid(v) && v.info.Keys == w.info.Keys && Ranked(v.info, rank)
    decreases |db| - i
  {
    if i == |db| then w else RestartFrom(RestartIf(w, db[i], rank), db, i + 1, rank)
  }

  ghost function RestartRestarting(w: World, db: seq<Name>, rank: map<Name, nat>): (v: World)
    requires Valid(w) && Ranked(w.info, rank)
    requires forall k | 0 <= k < |db| :: db[k] in w.info
    ensures Valid(v) && v.info.Keys == w.info.Keys && Ranked(v.info, rank)
  {
    if BatchStopping(w) then w else RestartFrom(w, db, 0, rank)
  }

  /** While the loop runs no flagged service is stopping: the flag is cleared, and
      the start made, in a world where the whole batch has stopped.  A service that
      is still flagged afterwards was neither stopped nor stopping, and has not
      been touched. */
  lemma {:induction false} RestartFromKeeps(w: World, db: seq<Name>, i: nat, rank: map<Name, nat>)
    requires Valid(w) && Ranked(w.info, rank) && i <= |db|
    requires forall k | 0 <= k < |db| :: db[k] in w.info
    requires !BatchStopping(w)
    ensures var v := RestartFrom(w, db, i, rank);
            && !BatchStopping(v)
            && (forall t | t in w.info && Flagged(v, t) :: Flagged(w, t) && v.y.svc[t] == w.y.svc[t])
            && (forall k | i <= k < |db| :: !(Flagged(v, db[k]) && RoughOf(v, db[k]) == Down))
    decreases |db| - i
  {
    if i < |db| {
      RestartIfKeeps(w, db[i], rank);
      RestartFromKeeps(RestartIf(w, db[i], rank), db, i + 1, rank);
    }
  }

  lemma RestartIfKeeps(w: World, s: Name, rank: map<Name, nat>)
    requires Valid(w) && Ranked(w.info, rank) && s in w.info && !BatchStopping(w)
    ensures var v := RestartIf(w, s, rank);
            && !BatchStopping(v)
            && !(Flagged(v, s) && RoughOf(v, s) == Down)
            && (forall t | t in w.info && Flagged(v, t) :: Flagged(w, t) && v.y.svc[t] == w.y.svc[t])
  {
    if RoughOf(w, s) == Down && Flagged(w, s) {
      FlagKeepsRanks(w, s, false, rank);
      StartHarmless(SetFlag(w, s, false), s, rank);
      HarmlessBatch(w, s, RestartIf(w, s, rank));
    }
  }

  lemma HarmlessBatch(w: World, s: Name, v: World)
    requires Valid(w) && s in w.info && !BatchStopping(w)
    requires Valid(SetFlag(w, s, false)) && Harmless(SetFlag(w, s, false), v)
    ensures Valid(v) && !BatchStopping(v) && !Flagged(v, s)
    ensures forall t | t in w.info && Flagged(v, t) :: Flagged(w, t) && v.y.svc[t] == w.y.svc[t]
  {
    var w1 := SetFlag(w, s, false);
    forall t | t in v.info ensures !FlagStopping(v, t) {
      if Flagged(v, t) {
        assert Flagged(w1, t) && v.y.svc[t] == w1.y.svc[t];
        assert !FlagStopping(w, t);
      }
    }
  }

  /** The pass is all or nothing: with a flagged service stopping it changes
      nothing; otherwise it leaves no flagged service stopped, and touches no
      service that keeps its flag. */
  lemma BarrierPass(w: World, db: seq<Name>, rank: map<Name, nat>)
    requires Valid(w) && Ranked(w.info, rank)
    requires forall k | 0 <= k < |db| :: db[k] in w.info
    requires forall t | t in w.info :: t in db
    ensures var v := RestartRestarting(w, db, rank);
            if BatchStopping(w) then v == w
            else && !BatchStopping(v)
                 && (forall t | t in w.info && Flagged(w, t) ::
                       Flagged(v, t) <==> RoughOf(w, t) != Down)
                 && (forall t | t in w.info && Flagged(v, t) :: Flagged(w, t) && v.y.svc[t] == w.y.svc[t])
  {
    if !BatchStopping(w) {
      RestartFromKeeps(w, db, 0, rank);
      RestartFromFlags(w, db, 0, rank);
    }
  }

  // ------------------------------------------------------- released means started

  /** The state a released service is left in: the starting one of id 1, or the failed one of
      id 3 if a required service of it is missing. */
  function Released(w: World, t: Name): (st: State)
    requires t in w.info
  {
    if HasBlock(w.info, t) then State(3, Failed, false) else State(1, Starting, true)
  }

  /** Nothing changes in a service that is neither stopped nor stopping, or is flagged. */
  lemma StartLeaves(w: World, s: Name, rank: map<Name, nat>, t: Name)
    requires Valid(w) && Unlocked(w) && Ranked(w.info, rank) && s in w.info && t in w.info
    requires (RoughOf(w, t) != Down && RoughOf(w, t) != Stopping) || Flagged(w, t)
    ensures Unlocked(Start(w, s, rank).w) && Start(w, s, rank).w.y.svc[t] == w.y.svc[t]
  {
    if Gate(w, s) { StartSpec(w, s, rank); }
  }

  lemma SameBlocks(w: World, v: World, t: Name)
    requires t in w.info && v.info.Keys == w.info.Keys && v.info[t].entries == w.info[t].entries
    ensures HasBlock(v.info, t) == HasBlock(w.info, t)
  {
    assert forall i | 0 <= i < |w.info[t].entries| ::
        Blocks(v.info, v.info[t].entries[i]) == Blocks(w.info, w.info[t].entries[i]);
  }

  /** The registry but for the flags. */
  predicate SameEntries(w: World, v: World) {
    && v.info.Keys == w.info.Keys && v.starting == w.starting
    && forall t | t in w.info :: v.info[t].entries == w.info[t].entries && v.info[t].typed == w.info[t].typed
  }

  /** What a start makes of the service it is called for. */
  lemma StartedSelf(w: World, s: Name, rank: map<Name, nat>)
    requires Valid(w) && Unlocked(w) && Ranked(w.info, rank) && s in w.info && w.starting
    requires RoughOf(w, s) == Down && !w.info[s].restarting
    ensures Unlocked(Start(w, s, rank).w) && Start(w, s, rank).w.starting == w.starting
    ensures w.info[s].typed ==> Start(w, s, rank).w.y.svc[s].current == Released(w, s)
  {
    if w.info[s].typed {
      StartsRight(w, s, rank);
      StartSpec(w, s, rank);
      ReachSelf(w, s);
    }
  }

  lemma RestartIfStarts(w: World, s: Name, rank: map<Name, nat>, t: Name)
    requires Valid(w) && Unlocked(w) && Ranked(w.info, rank) && s in w.info && t in w.info && w.starting
    ensures var v := RestartIf(w, s, rank);
            && Unlocked(v) && SameEntries(w, v)
            && (t != s ==> v.info[t].restarting == w.info[t].restarting)
            && (t == s && w.info[s].restarting && RoughOf(w, s) == Down && w.info[s].typed ==>
                  v.y.svc[s].current == Released(w, s))
            && (t != s && ((RoughOf(w, t) != Down && RoughOf(w, t) != Stopping) || w.info[t].restarting) ==>
                  v.y.svc[t] == w.y.svc[t])
  {
    if RoughOf(w, s) == Down && Flagged(w, s) {
      var w1 := SetFlag(w, s, false);
      FlagKeepsRanks(w, s, false, rank);
      SameBlocks(w, w1, s);
      StartedSelf(w1, s, rank);
      if t != s && ((RoughOf(w, t) != Down && RoughOf(w, t) != Stopping) || w.info[t].restarting) {
        StartLeaves(w1, s, rank, t);
      }
    }
  }

  /** From `i` on the loop starts every flagged, stopped service it comes to, and leaves those
      alone that it has started. */
  lemma {:induction false} RestartFromStarts(w: World, db: seq<Name>, i: nat, rank: map<Name, nat>, t: Name)
    requires Valid(w) && Unlocked(w) && Ranked(w.info, rank) && i <= |db| && w.starting && t in w.info
    requires forall k | 0 <= k < |db| :: db[k] in w.info
    ensures var v := RestartFrom(w, db, i, rank);
            && (w.info[t].typed && w.info[t].restarting && RoughOf(w, t) == Down && t in db[i..] ==>
                  v.y.svc[t].current == Released(w, t))
            && (!w.info[t].restarting && RoughOf(w, t) != Down && RoughOf(w, t) != Stopping ==> v.y.svc[t] == w.y.svc[t])
    decreases |db| - i
  {
    if i < |db| {
      var w1 := RestartIf(w, db[i], rank);
      RestartIfStarts(w, db[i], rank, t);
      RestartFromStarts(w1, db, i + 1, rank, t);
      assert db[i..] == [db[i]] + db[i + 1..];
      SameBlocks(w, w1, t);
      RestartIfClears(w, db[i], rank);
    }
  }

  lemma RestartIfClears(w: World, s: Name, rank: map<Name, nat>)
    requires Valid(w) && Ranked(w.info, rank) && s in w.info
    ensures Flagged(w, s) && RoughOf(w, s) == Down ==> !RestartIf(w, s, rank).info[s].restarting
    ensures !Flagged(w, s) || RoughOf(w, s) != Down ==> RestartIf(w, s, rank) == w
  {
    FlagKeepsRanks(w, s, false, rank);
  }

  /** In a system that is starting, with no flagged service stopping: after the pass every
      flagged, stopped service has been started. */
  lemma PassStarts(w: World, db: seq<Name>, rank: map<Name, nat>, t: Name)
    requires Valid(w) && Unlocked(w) && Ranked(w.info, rank) && w.starting && !BatchStopping(w)
    requires (forall k | 0 <= k < |db| :: db[k] in w.info) && t in db
    requires w.info[t].typed && w.info[t].restarting && RoughOf(w, t) == Down
    ensures RestartRestarting(w, db, rank).y.svc[t].current ==
            if HasBlock(w.info, t) then State(3, Failed, false) else State(1, Starting, true)
  {
    assert db[0..] == db;
    RestartFromStarts(w, db, 0, rank, t);
  }

  /** What a pass leaves behind: if it was not held up, all flagged, stopped services started. */
  ghost predicate PassStarted(w: World, v: World)
    requires Valid(w) && Valid(v) && v.info.Keys == w.info.Keys
  {
    Unlocked(w) && w.starting && !BatchStopping(w) ==>
      forall t | t in w.info && w.info[t].typed && w.info[t].restarting && RoughOf(w, t) == Down ::
        v.y.svc[t].current == if HasBlock(w.info, t) then State(3, Failed, false) else State(1, Starting, true)
  }

  lemma AllStarted(w: World, db: seq<Name>, rank: map<Name, nat>)
    requires Valid(w) && Ranked(w.info, rank)
    requires (forall k | 0 <= k < |db| :: db[k] in w.info) && forall t | t in w.info :: t in db
    ensures PassStarted(w, RestartRestarting(w, db, rank))
  {
    if Unlocked(w) && w.starting && !BatchStopping(w) {
      forall t | t in w.info && w.info[t].typed && w.info[t].restarting && RoughOf(w, t) == Down
        ensures RestartRestarting(w, db, rank).y.svc[t].current ==
                if HasBlock(w.info, t) then State(3, Failed, false) else State(1, Starting, true)
      {
        PassStarts(w, db, rank, t);
      }
    }
  }

  /** The loop clears no flag of a service that is not stopped. */
  lemma {:induction false} RestartFromFlags(w: World, db: seq<Name>, i: nat, rank: map<Name, nat>)
    requires Valid(w) && Ranked(w.info, rank) && i <= |db|
    requires forall k | 0 <= k < |db| :: db[k] in w.info
    ensures forall t | t in w.info && Flagged(w, t) && RoughOf(w, t) != Down ::
              Flagged(RestartFrom(w, db, i, rank), t)
    decreases |db| - i
  {
    if i < |db| {
      var v := RestartIf(w, db[i], rank);
      if RoughOf(w, db[i]) == Down && Flagged(w, db[i]) {
        var w1 := SetFlag(w, db[i], false);
        FlagKeepsRanks(w, db[i], false, rank);
        StartHarmless(w1, db[i], rank);
        forall t | t in w.info && Flagged(w, t) && RoughOf(w, t) != Down
          ensures Flagged(v, t) && RoughOf(v, t) != Down
        {
          assert Flagged(w1, t);
        }
      }
      RestartFromFlags(v, db, i + 1, rank);
    }
  }

  // ------------------------------------------------------------------ every run

  /** stop_service for a daemon: only a service that is up or starting is stopped. */
  function StopOne(w: World, s: Name): (v: World)
    requires Valid(w) && s in w.info
  {
    if !w.info[s].typed || !(RoughOf(w, s) == Up || RoughOf(w, s) == Starting) then w
    else if w.y.svc[s].current == WAITING_FOR_START_DEP then MarkIn(w, s, STOPPED)
    else MarkIn(w, s, STOP_MARKED)
  }

  /** restart_service: only a running service is flagged, then stopped. */
  function RestartOne(w: World, s: Name): (v: World)
    requires Valid(w) && s in w.info
  {
    if !w.info[s].typed || RoughOf(w, s) != Up then w
    else StopOne(SetFlag(w, s, true), s)
  }

  /** Stopping, on an unlocked service, with the states written out: a service that still waits
      for its dependencies is stopped at once, any other that is up or starting is marked. */
  lemma StopsRight(w: World, s: Name)
    requires Valid(w) && Unlocked(w) && s in w.info
    ensures var now := w.y.svc[s].current;
            StopOne(w, s).y.svc[s].current ==
              if !w.info[s].typed || now.rough !in {Up, Starting} then now
              else if now == State(7, Starting, false) then State(6, Down, false)
              else State(5, Stopping, true)
  {
    var now := w.y.svc[s].current;
    if now == WAITING_FOR_START_DEP { MarkUnlockedCommits(w.y, s, STOPPED); }
    else if now != STOP_MARKED { MarkUnlockedCommits(w.y, s, STOP_MARKED); }
  }

  /** A restart takes a service that is up, and no other: it is flagged and stopping. */
  lemma RestartsRight(w: World, s: Name)
    requires Valid(w) && Unlocked(w) && s in w.info
    ensures var v := RestartOne(w, s);
            if w.info[s].typed && RoughOf(w, s) == Up
            then v.info[s].restarting && v.y.svc[s].current == State(5, Stopping, true)
            else v == w
  {
    if w.info[s].typed && RoughOf(w, s) == Up { StopsRight(SetFlag(w, s, true), s); }
  }

  datatype Step =
    | StartCmd(s: Name)
    | RestartCmd(s: Name)
    | StopCmd(s: Name)
    | Barrier
    | Advance(s: Name, st: State)

  /** Stopped, stopping or failed: states only a start leads out of. */
  predicate Idle(r: Rough) {
    r == Down || r == Stopping || r == Failed
  }

  function RoughOfDaemon(s: Daemon.DState): (r: Rough) {
    if s == Daemon.Running then Up
    else if s == Daemon.Stopped then Down
    else if Daemon.IsStarting(s) then Starting
    else if Daemon.IsStopping(s) then Stopping
    else Failed
  }

  /** The rough states as the daemon's states declare them; all others are failures. */
  lemma RoughsAsDeclared(s: Daemon.DState)
    ensures RoughOfDaemon(s) == Up <==> s == Daemon.Running
    ensures RoughOfDaemon(s) == Down <==> s == Daemon.Stopped
    ensures RoughOfDaemon(s) == Starting <==>
            s in {Daemon.StartMarked, Daemon.WaitStartDep, Daemon.StartDepsMet,
                  Daemon.Launch, Daemon.WaitPidFile, Daemon.WaitResp}
    ensures RoughOfDaemon(s) == Stopping <==>
            s in {Daemon.StopMarked, Daemon.WaitStopDep, Daemon.StopDepsMet, Daemon.Kill, Daemon.Term}
  {
  }

  /** A step of a daemon that no start command makes: while the service is flagged, the gate
      of start_service is shut. */
  ghost predicate OwnStep(before: Rough, after: Rough) {
    exists d, c, e | Daemon.Can(d, e) && !(e.Command? && e.gate) ::
      RoughOfDaemon(d.st) == before && RoughOfDaemon(Daemon.Next(d, c, e).st) == after
  }

  /** No such step leads out of the idle states. */
  lemma DaemonStaysIdle(d: Daemon.D, c: Daemon.Config, e: Daemon.Event)
    requires Daemon.Can(d, e) && !(e.Command? && e.gate) && Idle(RoughOfDaemon(d.st))
    ensures Idle(RoughOfDaemon(Daemon.Next(d, c, e).st))
  {
    match e
    case Handled(now, out) => InitStaysIdle(d, c, now, out);
    case Alarmed(now, gate, depsFound, out) => AlarmStaysIdle(d.(alarm := 0), c, now, gate, depsFound, out);
    case ProcDied(now, k, status, out) => DeathStaysIdle(d, c, k, status, now, out);
    case _ =>
  }

  lemma InitStaysIdle(d: Daemon.D, c: Daemon.Config, now: int, out: Daemon.Outside)
    requires Idle(RoughOfDaemon(d.st))
    ensures Idle(RoughOfDaemon(Daemon.Init(d, c, now, out).st))
  {
  }

  lemma AlarmStaysIdle(d: Daemon.D, c: Daemon.Config, now: int, gate: bool, depsFound: bool, out: Daemon.Outside)
    requires Idle(RoughOfDaemon(d.st))
    ensures Idle(RoughOfDaemon(Daemon.Alarm(d, c, now, gate, depsFound, out).st))
  {
    Daemon.KillQuiet(d, out);
  }

  lemma DeathStaysIdle(d: Daemon.D, c: Daemon.Config, k: nat, status: Daemon.Status, now: int, out: Daemon.Outside)
    requires k < |d.procs| && d.procs[k].active && Idle(RoughOfDaemon(d.st))
    ensures Idle(RoughOfDaemon(Daemon.Died(d, c, k, status, now, out).st))
  {
    Daemon.ExitCause(Daemon.FreeAt(Daemon.CheckRespawn(d, c, now).0, k), c, status, now);
  }

  lemma OwnStepStaysIdle(before: Rough, after: Rough)
    ensures OwnStep(before, after) && Idle(before) ==> Idle(after)
  {
    if OwnStep(before, after) && Idle(before) {
      var d, c, e :| Daemon.Can(d, e) && !(e.Command? && e.gate) &&
                     RoughOfDaemon(d.st) == before && RoughOfDaemon(Daemon.Next(d, c, e).st) == after;
      DaemonStaysIdle(d, c, e);
    }
  }

  /** One step; `Advance` is a service's own progress: any for one that is not flagged, a
      daemon's for one that is. */
  ghost predicate Next(w: World, st: Step, v: World, db: seq<Name>, rank: map<Name, nat>)
    requires Valid(w) && Ranked(w.info, rank)
  {
    match st
    case StartCmd(s) => s in w.info && v == Start(w, s, rank).w
    case RestartCmd(s) => s in w.info && v == RestartOne(w, s)
    case StopCmd(s) => s in w.info && v == StopOne(w, s)
    case Barrier => (forall k | 0 <= k < |db| :: db[k] in w.info) && v == RestartRestarting(w, db, rank)
    case Advance(s, x) =>
      s in w.info && (Flagged(w, s) ==> OwnStep(RoughOf(w, s), x.rough)) && v == MarkIn(w, s, x)
  }

  /** Flagged and not running: waiting for its batch. */
  predicate InBatch(w: World, t: Name)
    requires Valid(w)
  {
    Flagged(w, t) && Idle(RoughOf(w, t))
  }

  lemma BatchLeftOnlyThroughBarrier(
    w: World, st: Step, v: World, db: seq<Name>, rank: map<Name, nat>, t: Name)
    requires Valid(w) && Ranked(w.info, rank) && Valid(v)
    ensures Next(w, st, v, db, rank) && InBatch(w, t) && !InBatch(v, t) ==> st == Barrier && !BatchStopping(w)
  {
    if Next(w, st, v, db, rank) && InBatch(w, t) {
      match st
      case StartCmd(s) => StartHarmless(w, s, rank);
      case RestartCmd(s) =>
      case StopCmd(s) =>
      case Advance(s, x) =>
        if s == t {
          OwnStepStaysIdle(RoughOf(w, s), x.rough);
          AdvanceStaysIdle(w, s, x);
        }
      case Barrier =>
    }
  }

  lemma AdvanceStaysIdle(w: World, s: Name, x: State)
    requires Valid(w) && s in w.info && Idle(RoughOf(w, s)) && Idle(x.rough)
    ensures Valid(MarkIn(w, s, x)) && Idle(RoughOf(MarkIn(w, s, x), s))
  {
  }

  ghost predicate Run(ws: seq<World>, steps: seq<Step>, db: seq<Name>, rank: map<Name, nat>) {
    && |ws| == |steps| + 1
    && (forall i | 0 <= i < |ws| :: Valid(ws[i]) && Ranked(ws[i].info, rank))
    && (forall i | 0 <= i < |steps| :: Next(ws[i], steps[i], ws[i + 1], db, rank))
  }

  /** In every run: a flagged service that was stopped or stopping and is no longer
      so at the end has been released by a barrier pass, made at a moment when it
      was still flagged and no flagged service at all was stopping. */
  lemma {:induction false} RestartWaitsForWholeBatch(
    ws: seq<World>, steps: seq<Step>, db: seq<Name>, rank: map<Name, nat>, t: Name)
    requires Run(ws, steps, db, rank)
    requires InBatch(ws[0], t) && !InBatch(ws[|steps|], t)
    ensures exists i | 0 <= i < |steps| ::
              steps[i] == Barrier && InBatch(ws[i], t) && !BatchStopping(ws[i])
    decreases |steps|
  {
    assert Next(ws[0], steps[0], ws[1], db, rank);
    if InBatch(ws[1], t) {
      var us, rest := ws[1..], steps[1..];
      assert Run(us, rest, db, rank) by {
        forall i | 0 <= i < |rest| ensures Next(us[i], rest[i], us[i + 1], db, rank) {
          assert Next(ws[i + 1], steps[i + 1], ws[i + 2], db, rank);
        }
      }
      RestartWaitsForWholeBatch(us, rest, db, rank, t);
      var i :| 0 <= i < |rest| && rest[i] == Barrier && InBatch(us[i], t) && !BatchStopping(us[i]);
      assert steps[i + 1] == Barrier && InBatch(ws[i + 1], t) && !BatchStopping(ws[i + 1]);
    } else {
      BatchLeftOnlyThroughBarrier(ws[0], steps[0], ws[1], db, rank, t);
    }
  }
}
