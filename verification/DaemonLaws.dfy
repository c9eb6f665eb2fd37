/**
  Which event takes a daemon into which state: for every state, exactly when it is entered,
  over all events and configurations.
 */
module DaemonLaws {

  import opened Basics
  import opened Daemon
  import opened DaemonStates

  predicate Enters(d: D, c: Config, e: Event, s: DState)
    requires Can(d, e)
  {
    d.st != s && Next(d, c, e).st == s
  }

  /** A start command that is let through. */
  predicate Orders(e: Event, depsFound: bool) {
    e.Command? && e.start && e.gate && e.depsFound == depsFound
  }

  /** The respawn pause is over, and the service may be started. */
  predicate PauseOver(d: D, e: Event, gate: bool) { e.Alarmed? && d.st == WaitResp && e.gate == gate }

  /** START_DEPS_MET is handled, and no running process is found by name. */
  predicate Launches(d: D, c: Config, e: Event) {
    e.Handled? && d.st == StartDepsMet && !(c.pidOf && e.out.foundPid > 1 && e.out.foundAlive)
  }

  /** And a module starts the process. */
  predicate Succeeds(d: D, e: Event)
    requires e.Handled?
  {
    !HasProcess(d.procs) && e.out.launched
  }

  /** The pid of a live process is known. */
  predicate PidKnown(c: Config, out: Outside) { (c.pidOf || c.pidFile) && out.foundPid > 0 && out.foundAlive }

  /** The wait for the pid goes on: less than a minute has passed. */
  predicate StillTime(d: D, e: Event) { e.Alarmed? && d.st == WaitPidFile && e.now <= d.since + 60 }

  /** A daemon process died, and it was not the fork that leaves the real daemon behind. */
  predicate Death(d: D, c: Config, e: Event)
    requires Can(d, e)
  {
    e.ProcDied? && d.procs[e.k].kind == TDaemon && !(d.st == WaitPidFile && c.forks)
  }

  /** It will be started again: it was running, and the last respawn is long enough ago. */
  predicate Respawns(d: D, c: Config, e: Event) {
    && d.st == Running && c.respawn
    && (d.lastRespawn == 0 || RateOf(c) <= 0 || e.now - d.lastRespawn >= RateOf(c))
  }

  /** A bad exit that does no harm. */
  predicate Excused(d: D, c: Config) { c.failOk || (IsStopping(d.st) && c.stopsBadly) }

  lemma FoundIff(procs: seq<Proc>)
    ensures Find(procs, TDaemon, 0) < |procs| <==> HasProcess(procs)
  {
    var k := Find(procs, TDaemon, 0);
    if k < |procs| { assert IsDaemon(procs[k]); }
  }

  /** The state after an event, by cases. */
  function StateAfter(d: D, c: Config, e: Event): (s: DState)
    requires Can(d, e)
  {
    match e
    case Command(_, start, gate, depsFound) =>
      if start then Started(d.st, gate, depsFound)
      else if d.st == WaitStartDep then Stopped
      else if d.st == Running || IsStarting(d.st) then StopMarked else d.st
    case Handled(_, out) => StateAfterInit(d, c, out)
    case Checked(_, v, sysStarting) =>
      if d.st == WaitStartDep then
        if v == Never then StartDepsFailed else if v == NotYet then d.st else if sysStarting then StartDepsMet else Stopped
      else if d.st == WaitStopDep && v == Yes then StopDepsMet else d.st
    case Alarmed(now, gate, depsFound, out) =>
      if d.st == WaitPidFile then if now > d.since + 60 then FailPidTimeout else StateAfterFetch(d, c, out)
      else if d.st == WaitResp then Started(Stopped, gate, depsFound)
      else if d.st == Term then Kill else d.st
    case ProcDied(now, k, status, out) =>
      if d.procs[k].kind == TKill then d.st
      else if d.st == WaitPidFile && c.forks then StateAfterFetch(d, c, out)
      else if Respawns(d, c, e) then WaitResp
      else if status.signal == 11 then FailSignal
      else if status.code == 0 || Excused(d, c) then Stopped else FailRcode
    case Cleared(_) => d.st
  }

  function Started(st: DState, gate: bool, depsFound: bool): (s: DState) {
    if !gate || !(st == Stopped || IsStopping(st)) then st
    else if !depsFound then ReqNotFound else if st == WaitStopDep then Running else StartMarked
  }

  function StateAfterFetch(d: D, c: Config, out: Outside): (s: DState) {
    if !PidKnown(c, out) then d.st else if HasProcess(d.procs) then Running else UpCheckFailed
  }

  function StateAfterInit(d: D, c: Config, out: Outside): (s: DState) {
    FoundIff(d.procs);
    match d.st
    case StartMarked => WaitStartDep
    case StopMarked => WaitStopDep
    case StartDepsMet =>
      if c.pidOf && out.foundPid > 1 && out.foundAlive then Running
      else if HasProcess(d.procs) || !out.launched then FailLaunch
      else if c.pidFile || c.pidOf then WaitPidFile else if c.forks then Launch else Running
    case StopDepsMet =>
      if !HasProcess(d.procs) then StopDepsMet
      else if d.procs[Find(d.procs, TDaemon, 0)].pid > 0 && !out.gone then Term else Stopped
    case _ => d.st
  }

  lemma InitMoves(d: D, c: Config, now: int, out: Outside)
    ensures Init(d, c, now, out).st == StateAfterInit(d, c, out)
  {
    FoundIff(d.procs);
    if d.st == StopDepsMet { KillQuiet(Launched(d.(queued := false), TKill, out).0, Second(out)); }
  }

  lemma FetchMoves(d: D, c: Config, now: int, out: Outside)
    ensures TryGetPid(d, c, now, out).0.st == StateAfterFetch(d, c, out)
  {
    FoundIff(d.procs);
  }

  lemma AlarmMoves(d: D, c: Config, e: Event)
    requires Can(d, e) && e.Alarmed?
    ensures Next(d, c, e).st == StateAfter(d, c, e)
  {
    var d0 := d.(alarm := 0);
    FetchMoves(d0, c, e.now, e.out);
    KillQuiet(d0, e.out);
    KillQuiet(Mark(d0, FailPidTimeout, e.now), e.out);
  }

  lemma DeathMoves(d: D, c: Config, e: Event)
    requires Can(d, e) && e.ProcDied?
    ensures Next(d, c, e).st == StateAfter(d, c, e)
  {
    FetchMoves(d, c, e.now, e.out);
    var d1 := CheckRespawn(d, c, e.now).0;
    RespawnMoves(d, c, e);
    ExitMoves(FreeAt(d1, e.k), c, e.status, e.now);
  }

  lemma RespawnMoves(d: D, c: Config, e: Event)
    ensures var (r, ok) := CheckRespawn(d, c, e.now);
            && ok == Respawns(d, c, e) && r.procs == d.procs
            && r.st == if ok then WaitResp else if d.st == Running && c.respawn then RateExceeded else d.st
  {
  }

  lemma ExitMoves(d: D, c: Config, status: Status, now: int)
    ensures Exited(d, c, status, now).st ==
            if status.signal == 11 then FailSignal
            else if status.code == 0 || Excused(d, c) then Stopped else FailRcode
  {
  }

  lemma NextMoves(d: D, c: Config, e: Event)
    requires Can(d, e)
    ensures Next(d, c, e).st == StateAfter(d, c, e)
  {
    match e
    case Handled(now, out) => InitMoves(d, c, now, out);
    case Alarmed(_, _, _, _) => AlarmMoves(d, c, e);
    case ProcDied(_, _, _, _) => DeathMoves(d, c, e);
    case _ =>
  }

  // ------------------------------------------------------------------- on the way up

  lemma EntersStartMarked(d: D, c: Config, e: Event)
    requires Can(d, e)
    ensures Enters(d, c, e, StartMarked) <==>
            || (Orders(e, true) && d.st in {Stopped, StopMarked, StopDepsMet, Term, Kill})
            || (PauseOver(d, e, true) && e.depsFound)
  {
    NextMoves(d, c, e);
  }

  lemma EntersWaitStartDep(d: D, c: Config, e: Event)
    requires Can(d, e)
    ensures Enters(d, c, e, WaitStartDep) <==> e.Handled? && d.st == StartMarked
  {
    NextMoves(d, c, e);
  }

  lemma EntersStartDepsMet(d: D, c: Config, e: Event)
    requires Can(d, e)
    ensures Enters(d, c, e, StartDepsMet) <==> e.Checked? && d.st == WaitStartDep && e.v == Yes && e.sysStarting
  {
    NextMoves(d, c, e);
  }

  lemma EntersLaunch(d: D, c: Config, e: Event)
    requires Can(d, e)
    ensures Enters(d, c, e, Launch) <==>
            Launches(d, c, e) && Succeeds(d, e) && c.forks && !c.pidFile && !c.pidOf
  {
    NextMoves(d, c, e);
  }

  lemma EntersWaitPidFile(d: D, c: Config, e: Event)
    requires Can(d, e)
    ensures Enters(d, c, e, WaitPidFile) <==> Launches(d, c, e) && Succeeds(d, e) && (c.pidFile || c.pidOf)
  {
    NextMoves(d, c, e);
  }

  lemma EntersRunning(d: D, c: Config, e: Event)
    requires Can(d, e)
    ensures Enters(d, c, e, Running) <==>
            || (Orders(e, true) && d.st == WaitStopDep)
            || (e.Handled? && d.st == StartDepsMet && !Launches(d, c, e))
            || (Launches(d, c, e) && Succeeds(d, e) && !c.pidFile && !c.pidOf && !c.forks)
            || (StillTime(d, e) && PidKnown(c, e.out) && HasProcess(d.procs))
            || (e.ProcDied? && d.procs[e.k].kind == TDaemon && d.st == WaitPidFile && c.forks && PidKnown(c, e.out))
  {
    NextMoves(d, c, e);
  }

  // ----------------------------------------------------------------- on the way down

  lemma EntersStopMarked(d: D, c: Config, e: Event)
    requires Can(d, e)
    ensures Enters(d, c, e, StopMarked) <==>
            e.Command? && !e.start && d.st in {Running, StartMarked, StartDepsMet, Launch, WaitPidFile, WaitResp}
  {
    NextMoves(d, c, e);
  }

  lemma EntersWaitStopDep(d: D, c: Config, e: Event)
    requires Can(d, e)
    ensures Enters(d, c, e, WaitStopDep) <==> e.Handled? && d.st == StopMarked
  {
    NextMoves(d, c, e);
  }

  lemma EntersStopDepsMet(d: D, c: Config, e: Event)
    requires Can(d, e)
    ensures Enters(d, c, e, StopDepsMet) <==> e.Checked? && d.st == WaitStopDep && e.v == Yes
  {
    NextMoves(d, c, e);
  }

  /** The process to be stopped is there: it has a pid, and kill finds it. */
  predicate CanBeKilled(d: D, e: Event)
    requires e.Handled? && HasProcess(d.procs)
  {
    FoundIff(d.procs);
    d.procs[Find(d.procs, TDaemon, 0)].pid > 0 && !e.out.gone
  }

  lemma EntersTerm(d: D, c: Config, e: Event)
    requires Can(d, e)
    ensures Enters(d, c, e, Term) <==>
            e.Handled? && d.st == StopDepsMet && HasProcess(d.procs) && CanBeKilled(d, e)
  {
    NextMoves(d, c, e);
  }

  lemma EntersKill(d: D, c: Config, e: Event)
    requires Can(d, e)
    ensures Enters(d, c, e, Kill) <==> e.Alarmed? && d.st == Term
  {
    NextMoves(d, c, e);
  }

  lemma EntersStopped(d: D, c: Config, e: Event)
    requires Can(d, e)
    ensures Enters(d, c, e, Stopped) <==>
            d.st != Stopped &&
            (|| (e.Command? && !e.start && d.st == WaitStartDep)
             || (e.Checked? && d.st == WaitStartDep && e.v == Yes && !e.sysStarting)
             || (e.Handled? && d.st == StopDepsMet && HasProcess(d.procs) && !CanBeKilled(d, e))
             || PauseOver(d, e, false)
             || (Death(d, c, e) && !Respawns(d, c, e) && e.status.signal != 11 && (e.status.code == 0 || Excused(d, c))))
  {
    NextMoves(d, c, e);
  }

  lemma EntersWaitResp(d: D, c: Config, e: Event)
    requires Can(d, e)
    ensures Enters(d, c, e, WaitResp) <==> Death(d, c, e) && Respawns(d, c, e)
  {
    NextMoves(d, c, e);
  }

  // ------------------------------------------------------------------------ failures

  lemma EntersFailRcode(d: D, c: Config, e: Event)
    requires Can(d, e)
    ensures Enters(d, c, e, FailRcode) <==>
            d.st != FailRcode && Death(d, c, e) && !Respawns(d, c, e) &&
            e.status.signal != 11 && e.status.code != 0 && !Excused(d, c)
  {
    NextMoves(d, c, e);
  }

  lemma EntersFailSignal(d: D, c: Config, e: Event)
    requires Can(d, e)
    ensures Enters(d, c, e, FailSignal) <==>
            d.st != FailSignal && Death(d, c, e) && !Respawns(d, c, e) && e.status.signal == 11
  {
    NextMoves(d, c, e);
  }

  lemma EntersFailLaunch(d: D, c: Config, e: Event)
    requires Can(d, e)
    ensures Enters(d, c, e, FailLaunch) <==> Launches(d, c, e) && !Succeeds(d, e)
  {
    NextMoves(d, c, e);
  }

  lemma EntersFailPidTimeout(d: D, c: Config, e: Event)
    requires Can(d, e)
    ensures Enters(d, c, e, FailPidTimeout) <==> e.Alarmed? && d.st == WaitPidFile && e.now > d.since + 60
  {
    NextMoves(d, c, e);
  }

  lemma EntersUpCheckFailed(d: D, c: Config, e: Event)
    requires Can(d, e)
    ensures Enters(d, c, e, UpCheckFailed) <==> StillTime(d, e) && PidKnown(c, e.out) && !HasProcess(d.procs)
  {
    NextMoves(d, c, e);
  }

  lemma EntersStartDepsFailed(d: D, c: Config, e: Event)
    requires Can(d, e)
    ensures Enters(d, c, e, StartDepsFailed) <==> e.Checked? && d.st == WaitStartDep && e.v == Never
  {
    NextMoves(d, c, e);
  }

  lemma EntersReqNotFound(d: D, c: Config, e: Event)
    requires Can(d, e)
    ensures Enters(d, c, e, ReqNotFound) <==>
            || (Orders(e, false) && d.st in {Stopped, StopMarked, WaitStopDep, StopDepsMet, Term, Kill})
            || (PauseOver(d, e, true) && !e.depsFound)
  {
    NextMoves(d, c, e);
  }

  // ------------------------------------------------------------------------- every run

  /** A daemon process dies with a code other than zero, by no segmentation fault, and with
      nothing to excuse it. */
  predicate DiesBadly(d: D, c: Config, e: Event) {
    Can(d, e) && Death(d, c, e) && e.status.signal != 11 && e.status.code != 0 && !Excused(d, c)
  }

  predicate DiesBySignal(d: D, c: Config, e: Event) {
    Can(d, e) && Death(d, c, e) && e.status.signal == 11
  }

  lemma FailureHasCause(d: D, c: Config, e: Event, r: D)
    requires Can(d, e) && Next(d, c, e) == r
    ensures d.st != FailRcode && r.st == FailRcode ==> DiesBadly(d, c, e)
    ensures d.st != FailSignal && r.st == FailSignal ==> DiesBySignal(d, c, e)
  {
    EntersFailRcode(d, c, e);
    EntersFailSignal(d, c, e);
  }

  /** In every run a daemon that failed by its exit code has had a process that died so. */
  lemma {:induction false} FailRcodeHasCause(ds: seq<D>, c: Config, es: seq<Event>, i: nat) returns (k: nat)
    requires Run(ds, c, es) && i <= |es| && ds[i].st == FailRcode
    ensures k < i && DiesBadly(ds[k], c, es[k])
  {
    assert Can(ds[i - 1], es[i - 1]);
    FailureHasCause(ds[i - 1], c, es[i - 1], ds[i]);
    if ds[i - 1].st == FailRcode { k := FailRcodeHasCause(ds, c, es, i - 1); } else { k := i - 1; }
  }

  /** And one that failed by a signal has had a process that died of a segmentation fault. */
  lemma {:induction false} FailSignalHasCause(ds: seq<D>, c: Config, es: seq<Event>, i: nat) returns (k: nat)
    requires Run(ds, c, es) && i <= |es| && ds[i].st == FailSignal
    ensures k < i && DiesBySignal(ds[k], c, es[k])
  {
    assert Can(ds[i - 1], es[i - 1]);
    FailureHasCause(ds[i - 1], c, es[i - 1], ds[i]);
    if ds[i - 1].st == FailSignal { k := FailSignalHasCause(ds, c, es, i - 1); } else { k := i - 1; }
  }

  predicate IsFailed(s: DState) { s != Running && s != Stopped && !IsStarting(s) && !IsStopping(s) }

  /** A clean exit fails no daemon, but where the pid is fetched, which needs a process. */
  lemma CleanExitIsNoFailure(d: D, c: Config, e: Event)
    requires Can(d, e) && e.ProcDied? && e.status == Status(0, 0) && !IsFailed(d.st)
    ensures !IsFailed(Next(d, c, e).st)
  {
    NextMoves(d, c, e);
    assert d.procs[e.k].kind == TDaemon ==> IsDaemon(d.procs[e.k]);
  }

  // ----------------------------------------------------------- alarms and processes

  /** How long each timed state waits. */
  lemma AlarmIsSet(d: D, c: Config, now: int, out: Outside)
    ensures var r := Init(d, c, now, out);
            && (d.st == WaitPidFile ==> r.alarm == now + 1)
            && (d.st == WaitResp ==> r.alarm == now + if c.respawnPause.Some? then c.respawnPause.value else 1)
            && (d.st == Term ==> r.alarm == now + if c.termTimeout == 0 then 30 else c.termTimeout)
            && (d.st == Kill ==> r.alarm == now + 2)
            && (r.st != d.st ==> r.alarm == 0 && r.since == now)
            && (r.st == d.st ==> r.since == d.since)
  {
    if d.st == StopDepsMet { KillQuiet(Launched(d.(queued := false), TKill, out).0, Second(out)); }
  }

  /** Without a rate of its own, a daemon may respawn every ten seconds. */
  lemma DefaultRate(c: Config)
    ensures RateOf(c) == if c.respawnRate == None then 10 else c.respawnRate.value
  {
  }

  /** A process that died is freed, and no other changes; the fork that leaves the daemon
      behind stays on the list, with the daemon's pid once that is known. */
  lemma DeathFrees(d: D, c: Config, e: Event)
    requires Can(d, e) && e.ProcDied?
    ensures var r := Next(d, c, e).procs;
            if d.procs[e.k].kind == TDaemon && d.st == WaitPidFile && c.forks then
              var k := Find(d.procs, TDaemon, 0);
              k < |d.procs| && r == if PidKnown(c, e.out) then d.procs[k := d.procs[k].(pid := e.out.foundPid)] else d.procs
            else r == d.procs[e.k := d.procs[e.k].(active := false)]
  {
    FoundIff(d.procs);
    assert d.procs[e.k].kind == TDaemon ==> IsDaemon(d.procs[e.k]);
    ExitCause(FreeAt(CheckRespawn(d, c, e.now).0, e.k), c, e.status, e.now);
  }

  /** A launch adds one process of the daemon type, active exactly if a module started it; a
      process found by name is added with its pid. */
  lemma LaunchAdds(d: D, c: Config, e: Event)
    requires Can(d, e) && e.Handled? && d.st == StartDepsMet
    ensures Next(d, c, e).procs ==
            if !Launches(d, c, e) then d.procs + [Proc(TDaemon, e.out.foundPid, true)]
            else if HasProcess(d.procs) then d.procs
            else if e.out.launched then d.procs + [Proc(TDaemon, e.out.newPid, true)]
            else d.procs + [Proc(TDaemon, 0, false)]
  {
    FoundIff(d.procs);
  }

  /** The count of launches goes up exactly when a daemon process is launched or adopted. */
  lemma LaunchesAreCounted(d: D, c: Config, e: Event)
    requires Can(d, e)
    ensures Next(d, c, e).launches ==
            d.launches + if e.Handled? && d.st == StartDepsMet && (!Launches(d, c, e) || Succeeds(d, e)) then 1 else 0
  {
    LaunchHasCause(d, c, e);
    FoundIff(d.procs);
  }

  /** A daemon is stopped by a kill process, if a module starts one and none is at work; else
      by a signal, which frees the process if kill no longer finds it. */
  lemma StopActs(d: D, c: Config, e: Event)
    requires Can(d, e) && e.Handled? && d.st == StopDepsMet
    ensures var k, busy := Find(d.procs, TDaemon, 0), Find(d.procs, TKill, 0) < |d.procs|;
            var left := if k < |d.procs| && e.out.goneNext then d.procs[k := d.procs[k].(active := false)] else d.procs;
            Next(d, c, e).procs ==
              if !HasProcess(d.procs) || !CanBeKilled(d, e) then d.procs
              else if busy then left
              else if e.out.launched then d.procs + [Proc(TKill, e.out.newPid, true)]
              else left + [Proc(TKill, 0, false)]
  {
    FoundIff(d.procs);
    if HasProcess(d.procs) && CanBeKilled(d, e) { FoundBehind(d.procs, Proc(TKill, 0, false)); }
  }

  lemma FoundBehind(procs: seq<Proc>, p: Proc)
    requires HasProcess(procs)
    ensures Find(procs + [p], TDaemon, 0) == Find(procs, TDaemon, 0)
  {
    FoundIff(procs);
    var k := Find(procs, TDaemon, 0);
    assert (procs + [p])[k] == procs[k] && forall j | 0 <= j < k :: (procs + [p])[j] == procs[j];
  }

  /** Each timeout of a stop sends the signal again, and frees a process that is not there. */
  lemma KillActs(d: D, c: Config, e: Event)
    requires Can(d, e) && e.Alarmed? && d.st in {Term, Kill}
    ensures var k := Find(d.procs, TDaemon, 0);
            Next(d, c, e).procs ==
              if k < |d.procs| && (d.procs[k].pid <= 0 || e.out.gone) then d.procs[k := d.procs[k].(active := false)]
              else d.procs
    ensures d.st == Kill ==> Next(d, c, e).alarm == e.now + 2
  {
  }

  /** While there is time, the pid is looked for every second; that of a forked daemon is taken
      over. */
  lemma PidIsTakenOver(d: D, c: Config, e: Event)
    requires Can(d, e) && StillTime(d, e)
    ensures var k := Find(d.procs, TDaemon, 0);
            Next(d, c, e).procs ==
              if PidKnown(c, e.out) && c.forks && k < |d.procs| then d.procs[k := d.procs[k].(pid := e.out.foundPid)]
              else d.procs
    ensures Next(d, c, e).st != Running ==> Next(d, c, e).alarm == e.now + 1
  {
  }

  /** Nothing else changes the processes; but freed ones are cleared away, and then each type
      still has the same first process. */
  lemma OthersKeepProcs(d: D, c: Config, e: Event)
    requires Can(d, e)
    ensures e.Command? || e.Checked? || (e.Handled? && d.st != StartDepsMet && d.st != StopDepsMet) ||
            (e.Alarmed? && d.st == WaitResp) ==>
              Next(d, c, e).procs == d.procs
    ensures e.Cleared? ==> Cleared(d.procs, Next(d, c, e).procs) && Next(d, c, e) == d.(procs := Next(d, c, e).procs)
  {
    if e.Cleared? { ActiveIsCleared(d.procs); }
  }

  ghost predicate Cleared(procs: seq<Proc>, left: seq<Proc>) {
    && (forall p :: multiset(left)[p] == if p.active then multiset(procs)[p] else 0)
    && forall kind :: SameFirst(procs, left, kind)
  }

  predicate SameFirst(procs: seq<Proc>, left: seq<Proc>, kind: Kind) {
    var i, k := Find(procs, kind, 0), Find(left, kind, 0);
    (i < |procs| <==> k < |left|) && (i < |procs| && k < |left| ==> left[k] == procs[i])
  }

  lemma ActiveIsCleared(procs: seq<Proc>)
    ensures Cleared(procs, ActiveOf(procs))
  {
    forall p ensures multiset(ActiveOf(procs))[p] == if p.active then multiset(procs)[p] else 0 { ActiveStay(procs, p); }
    forall kind ensures SameFirst(procs, ActiveOf(procs), kind) { FirstStays(procs, kind); }
  }

  lemma {:induction false} ActiveStay(procs: seq<Proc>, p: Proc)
    ensures multiset(ActiveOf(procs))[p] == if p.active then multiset(procs)[p] else 0
    decreases |procs|
  {
    if procs != [] {
      ActiveStay(procs[1..], p);
      assert procs == [procs[0]] + procs[1..];
    }
  }

  lemma {:induction false} FirstStays(procs: seq<Proc>, kind: Kind)
    ensures SameFirst(procs, ActiveOf(procs), kind)
    decreases |procs|
  {
    if procs != [] {
      FirstStays(procs[1..], kind);
      FindTail(procs, kind);
      if procs[0].active { FindTail(ActiveOf(procs), kind); }
    }
  }

  lemma FindTail(procs: seq<Proc>, kind: Kind)
    requires procs != []
    ensures Find(procs, kind, 0) ==
            if procs[0].active && procs[0].kind == kind then 0 else 1 + Find(procs[1..], kind, 0)
  {
    var k := Find(procs[1..], kind, 0);
    assert forall j | 0 <= j < k :: procs[1..][j] == procs[j + 1];
    if k < |procs| - 1 { assert procs[1..][k] == procs[k + 1]; }
  }

  /** When the pid does not come in time, no active daemon process is left, if there was but
      one. */
  lemma TimeoutFrees(d: D, c: Config, e: Event)
    requires Can(d, e) && e.Alarmed? && d.st == WaitPidFile && e.now > d.since + 60 && AtMostOne(d.procs)
    ensures !HasProcess(Next(d, c, e).procs)
  {
    FoundIff(d.procs);
    var d1 := KillDaemon(Mark(d.(alarm := 0), FailPidTimeout, e.now), e.out);
    FoundIff(d1.procs);
    var r := Next(d, c, e).procs;
    forall i | 0 <= i < |r| ensures !IsDaemon(r[i]) {
      assert |r| == |d.procs| && (r[i] == d.procs[i] || !r[i].active);
    }
  }
}
