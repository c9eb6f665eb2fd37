/**
  The daemon handlers as they run: on one service object, changed in place.  Every method
  leaves the value that module Daemon computes for it, so the results about whole runs hold
  of the object.
 */
module DaemonService {

  import opened Basics
  import opened Daemon

  class Service {
    const config: Config
    var st: DState
    var queued: bool
    var procs: seq<Proc>
    var lastRespawn: int
    var alarm: int
    var since: int
    ghost var launches: nat
    ghost var entries: nat
    ghost var passes: nat
    ghost var respawns: seq<int>

    ghost function View(): (d: D)
      reads this
    {
      D(st, queued, procs, lastRespawn, alarm, since, launches, entries, passes, respawns)
    }

    constructor (config: Config)
      ensures this.config == config && Fresh(View())
    {
      this.config := config;
      st, queued, procs, lastRespawn, alarm, since := Stopped, false, [], 0, 0, 0;
      launches, entries, passes, respawns := 0, 0, 0, [];
    }

    method MarkAs(s: DState, now: int)
      modifies this
      ensures View() == Mark(old(View()), s, now)
    {
      if st != s {
        st, queued, alarm, since := s, true, 0, now;
        entries := entries + if s == StartDepsMet then 1 else 0;
      }
    }

    // ------------------------------------------------------------------ the processes

    /** The first process of a type that is active; the length of the list if there is none. */
    method GetProcess(kind: Kind) returns (k: nat)
      ensures k == Find(procs, kind, 0)
    {
      k := 0;
      while k < |procs|
        invariant k <= |procs| && Find(procs, kind, 0) == Find(procs, kind, k)
      {
        if procs[k].active && procs[k].kind == kind { return; }
        k := k + 1;
      }
    }

    method FreeProcess(k: nat)
      requires k < |procs|
      modifies this
      ensures View() == FreeAt(old(View()), k)
    {
      procs := procs[k := procs[k].(active := false)];
    }

    method ExecuteLaunch(kind: Kind, out: Outside) returns (ok: bool)
      modifies this
      ensures (View(), ok) == Launched(old(View()), kind, out)
    {
      var k := GetProcess(kind);
      if k < |procs| { return false; }
      procs := procs + [Proc(kind, 0, true)];
      ok := out.launched;
      if ok {
        procs := procs[|procs| - 1 := Proc(kind, out.newPid, true)];
        launches := launches + if kind == TDaemon then 1 else 0;
      } else {
        FreeProcess(|procs| - 1);
      }
      assert procs == old(procs) + [Proc(kind, if ok then out.newPid else 0, ok)];
    }

    method KillProcess(out: Outside)
      modifies this
      ensures View() == KillDaemon(old(View()), out)
    {
      var k := GetProcess(TDaemon);
      if k < |procs| && (procs[k].pid <= 0 || out.gone) { FreeProcess(k); }
    }

    // ---------------------------------------------------------- entering a state

    method StartDepsAreMet(now: int, out: Outside)
      modifies this
      ensures View() == InitStartDepsMet(old(View()), config, now, out)
    {
      MarkAs(Launch, now);
      if config.pidOf && out.foundPid > 1 && out.foundAlive {
        procs, launches := procs + [Proc(TDaemon, out.foundPid, true)], launches + 1;
        MarkAs(Running, now);
        return;
      }
      var ok := ExecuteLaunch(TDaemon, out);
      if !ok {
        MarkAs(FailLaunch, now);
      } else if config.pidFile || config.pidOf {
        MarkAs(WaitPidFile, now);
      } else if !config.forks {
        MarkAs(Running, now);
      }
    }

    method StopDepsAreMet(now: int, out: Outside)
      modifies this
      ensures View() == InitStopDepsMet(old(View()), now, out)
    {
      var k := GetProcess(TDaemon);
      if k == |procs| { return; }
      if procs[k].pid <= 0 || out.gone {
        MarkAs(Stopped, now);
        return;
      }
      var ok := ExecuteLaunch(TKill, out);
      if !ok { KillProcess(Second(out)); }
      MarkAs(Term, now);
    }

    /** The change of state is taken off the queue and its init hook is called. */
    method Handle(now: int, out: Outside)
      modifies this
      ensures View() == Init(old(View()), config, now, out)
    {
      queued := false;
      match st {
        case StartMarked => MarkAs(WaitStartDep, now);
        case StopMarked => MarkAs(WaitStopDep, now);
        case StartDepsMet => StartDepsAreMet(now, out);
        case StopDepsMet => StopDepsAreMet(now, out);
        case WaitPidFile => alarm := now + 1;
        case WaitResp =>
          var pause := DEFAULT_RESPAWN_PAUSE;
          if config.respawnPause.Some? { pause := config.respawnPause.value; }
          alarm := now + pause;
        case Term =>
          var timeout := config.termTimeout;
          if timeout == 0 { timeout := DEFAULT_TERM_TIMEOUT; }
          alarm := now + timeout;
        case Kill => alarm := now + DEFAULT_KILL_TIMEOUT;
        case _ =>
      }
    }

    // --------------------------------------------------------- waiting and commands

    method CheckDeps(now: int, v: Verdict, sysStarting: bool)
      modifies this
      ensures View() == Check(old(View()), now, v, sysStarting)
    {
      if st == WaitStartDep {
        if v == Never { MarkAs(StartDepsFailed, now); return; }
        if v == NotYet { return; }
        if !sysStarting { MarkAs(Stopped, now); return; }
        passes := passes + 1;
        MarkAs(StartDepsMet, now);
      } else if st == WaitStopDep && v == Yes {
        MarkAs(StopDepsMet, now);
      }
    }

    method StartDaemon(now: int, gate: bool, depsFound: bool)
      modifies this
      ensures View() == Start(old(View()), now, gate, depsFound)
    {
      if !gate || !(st == Stopped || IsStopping(st)) { return; }
      if !depsFound { MarkAs(ReqNotFound, now); return; }
      if st == WaitStopDep { MarkAs(Running, now); return; }
      MarkAs(StartMarked, now);
    }

    method StopDaemon(now: int)
      modifies this
      ensures View() == Stop(old(View()), now)
    {
      if !(st == Running || IsStarting(st)) { return; }
      if st == WaitStartDep { MarkAs(Stopped, now); return; }
      MarkAs(StopMarked, now);
    }

    // -------------------------------------------------------------- pids and alarms

    method FetchPid(now: int, out: Outside) returns (ok: bool)
      modifies this
      ensures (View(), ok) == TryGetPid(old(View()), config, now, out)
    {
      if !config.pidOf && !config.pidFile { return false; }
      if out.foundPid <= 0 || !out.foundAlive { return false; }
      var k := GetProcess(TDaemon);
      if k == |procs| { MarkAs(UpCheckFailed, now); return false; }
      if config.forks { procs := procs[k := procs[k].(pid := out.foundPid)]; }
      MarkAs(Running, now);
      ok := true;
    }

    method PidTimeout(now: int, out: Outside)
      requires st == WaitPidFile
      modifies this
      ensures View() == Alarm(old(View()), config, now, true, true, out)
    {
      if now > since + PID_TIMEOUT {
        MarkAs(FailPidTimeout, now);
        KillProcess(out);
        var k := GetProcess(TDaemon);
        if k < |procs| { FreeProcess(k); }
        return;
      }
      var ok := FetchPid(now, out);
      if !ok { alarm := now + 1; }
    }

    /** The alarm handler of the current state. */
    method Timeout(now: int, gate: bool, depsFound: bool, out: Outside)
      modifies this
      ensures View() == Alarm(old(View()), config, now, gate, depsFound, out)
    {
      match st {
        case WaitPidFile => PidTimeout(now, out);
        case WaitResp =>
          MarkAs(Stopped, now);
          StartDaemon(now, gate, depsFound);
        case Term =>
          KillProcess(out);
          MarkAs(Kill, now);
        case Kill =>
          KillProcess(out);
          alarm := now + DEFAULT_KILL_TIMEOUT;
        case _ =>
      }
    }

    // ----------------------------------------------------------- a process has died

    method Respawn(now: int) returns (ok: bool)
      modifies this
      ensures (View(), ok) == CheckRespawn(old(View()), config, now)
    {
      if st != Running { return false; }
      if !config.respawn { return false; }
      var rate := DEFAULT_RESPAWN_RATE;
      if config.respawnRate.Some? { rate := config.respawnRate.value; }
      if lastRespawn != 0 && rate > 0 {
        if now - lastRespawn < rate {
          MarkAs(RateExceeded, now);
          return false;
        }
      }
      lastRespawn, respawns := now, respawns + [now];
      MarkAs(WaitResp, now);
      ok := true;
    }

    /** What the exit of a daemon process that will not come back means for the service. */
    method MarkExit(status: Status, now: int)
      modifies this
      ensures View() == Exited(old(View()), config, status, now)
    {
      if status.signal == SIGSEGV { MarkAs(FailSignal, now); return; }
      if status.code == 0 { MarkAs(Stopped, now); return; }
      if config.failOk { MarkAs(Stopped, now); return; }
      if IsStopping(st) && config.stopsBadly { MarkAs(Stopped, now); return; }
      MarkAs(FailRcode, now);
    }

    method Killed(k: nat, status: Status, now: int, out: Outside)
      requires k < |procs| && procs[k].active
      modifies this
      ensures View() == Died(old(View()), config, k, status, now, out)
    {
      if procs[k].kind == TKill { FreeProcess(k); return; }
      if st == WaitPidFile && config.forks {
        var _ := FetchPid(now, out);
        return;
      }
      var respawn := Respawn(now);
      FreeProcess(k);
      if !respawn { MarkExit(status, now); }
    }
  }
}
