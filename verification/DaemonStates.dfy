/**
  What a daemon's state promises: a running daemon has a process, and a state that waits for
  time to pass has an alarm.
 */
module DaemonStates {

  import opened Basics
  import opened Daemon

  // ------------------------------------------------------------ running means a process

  predicate IsDaemon(p: Proc) { p.active && p.kind == TDaemon }

  predicate HasProcess(procs: seq<Proc>) { exists i | 0 <= i < |procs| :: IsDaemon(procs[i]) }

  predicate Backed(d: D) { d.st == Running ==> HasProcess(d.procs) }

  /** A start that meets the daemon waiting to stop, with no process. */
  predicate RevivesNothing(d: D, e: Event) {
    e.Command? && e.start && e.gate && e.depsFound && d.st == WaitStopDep && !HasProcess(d.procs)
  }

  lemma InitKeepsBacked(d: D, c: Config, now: int, out: Outside)
    requires Backed(d)
    ensures Backed(Init(d, c, now, out))
  {
    var r := Init(d, c, now, out);
    if d.st == StartDepsMet && r.st == Running {
      assert IsDaemon(r.procs[|r.procs| - 1]);
    }
  }

  lemma FetchKeepsBacked(d: D, c: Config, now: int, out: Outside)
    requires Backed(d)
    ensures Backed(TryGetPid(d, c, now, out).0)
  {
    var k := Find(d.procs, TDaemon, 0);
    var r := TryGetPid(d, c, now, out).0;
    if k < |d.procs| { assert |r.procs| == |d.procs| && IsDaemon(r.procs[k]); }
  }

  lemma AlarmKeepsBacked(d: D, c: Config, now: int, gate: bool, depsFound: bool, out: Outside)
    requires Backed(d)
    ensures Backed(Alarm(d, c, now, gate, depsFound, out))
  {
    if d.st == WaitPidFile { FetchKeepsBacked(d, c, now, out); }
  }

  lemma DiedKeepsBacked(d: D, c: Config, k: nat, status: Status, now: int, out: Outside)
    requires k < |d.procs| && d.procs[k].active && Backed(d)
    ensures Backed(Died(d, c, k, status, now, out))
  {
    if d.procs[k].kind == TKill {
      var r := FreeAt(d, k).procs;
      assert forall i | 0 <= i < |r| :: IsDaemon(d.procs[i]) ==> IsDaemon(r[i]);
    } else if d.st == WaitPidFile && c.forks {
      FetchKeepsBacked(d, c, now, out);
    } else {
      ExitCause(FreeAt(CheckRespawn(d, c, now).0, k), c, status, now);
    }
  }

  lemma {:induction false} ClearedHasProcess(procs: seq<Proc>, i: nat)
    requires i < |procs| && IsDaemon(procs[i])
    ensures HasProcess(ActiveOf(procs))
    decreases |procs|
  {
    var r := ActiveOf(procs);
    if i == 0 {
      assert IsDaemon(r[0]);
    } else {
      ClearedHasProcess(procs[1..], i - 1);
      var rest := ActiveOf(procs[1..]);
      var j :| 0 <= j < |rest| && IsDaemon(rest[j]);
      assert IsDaemon(r[if procs[0].active then j + 1 else j]);
    }
  }

  /** Every step keeps a process behind a running daemon, except exactly a start that takes
      back a stop for which there was no process. */
  lemma NextKeepsBacked(d: D, c: Config, e: Event)
    requires Can(d, e) && Backed(d)
    ensures Backed(Next(d, c, e)) <==> !RevivesNothing(d, e)
  {
    match e
    case Handled(now, out) => InitKeepsBacked(d, c, now, out);
    case Alarmed(now, gate, depsFound, out) => AlarmKeepsBacked(d.(alarm := 0), c, now, gate, depsFound, out);
    case ProcDied(now, k, status, out) => DiedKeepsBacked(d, c, k, status, now, out);
    case Cleared(_) =>
      if d.st == Running {
        var i :| 0 <= i < |d.procs| && IsDaemon(d.procs[i]);
        ClearedHasProcess(d.procs, i);
      }
    case _ =>
  }

  /** In every run without such a start, a running daemon has an active process. */
  lemma {:induction false} RunningHasProcess(ds: seq<D>, c: Config, es: seq<Event>, i: nat)
    requires Run(ds, c, es) && i <= |es|
    requires forall k | 0 <= k < i :: !RevivesNothing(ds[k], es[k])
    ensures Backed(ds[i])
  {
    if i > 0 {
      RunningHasProcess(ds, c, es, i - 1);
      assert Can(ds[i - 1], es[i - 1]);
      NextKeepsBacked(ds[i - 1], c, es[i - 1]);
    }
  }

  /** Whatever the configuration, there is a run with such a start: stop the daemon before
      its start has been handled, and start it again while it waits to stop. */
  lemma RunningWithNothing(d: D, c: Config, out: Outside) returns (ds: seq<D>, es: seq<Event>)
    requires Fresh(d)
    ensures Run(ds, c, es) && ds[0] == d
    ensures ds[|es|].st == Running && ds[|es|].procs == []
  {
    es := [Command(1, true, true, true), Command(1, false, true, true), Handled(1, out), Command(1, true, true, true)];
    FourSteps(d, c, es);
    ds := Walk([d], c, [], es);
    assert [] + es == es;
  }

  // ---------------------------------------------------------- waiting means an alarm

  predicate IsTimed(s: DState) { s in {WaitPidFile, WaitResp, Term, Kill} }

  /** A timed state's entry is yet to be handled, or its alarm is set. */
  predicate Timed(d: D) { IsTimed(d.st) ==> d.queued || d.alarm != 0 }

  predicate Timeouts(c: Config) { c.termTimeout >= 0 && (c.respawnPause.Some? ==> c.respawnPause.value >= 0) }

  lemma InitKeepsTimed(d: D, c: Config, now: int, out: Outside)
    requires Timeouts(c) && now > 0
    ensures Timed(Init(d, c, now, out))
  {
  }

  lemma FetchOutcome(d: D, c: Config, now: int, out: Outside)
    ensures var (r, ok) := TryGetPid(d, c, now, out);
            if ok then r.st == Running else r.st == UpCheckFailed || r == d
  {
  }

  lemma AlarmKeepsTimed(d: D, c: Config, now: int, gate: bool, depsFound: bool, out: Outside)
    requires now > 0
    ensures Timed(Alarm(d, c, now, gate, depsFound, out))
  {
    FetchOutcome(d, c, now, out);
    if d.st == WaitPidFile && now > d.since + PID_TIMEOUT {
      var m := Mark(d, FailPidTimeout, now);
      KillQuiet(m, out);
    } else if d.st == Term || d.st == Kill {
      KillQuiet(d, out);
    }
  }

  lemma DiedKeepsTimed(d: D, c: Config, k: nat, status: Status, now: int, out: Outside)
    requires k < |d.procs| && d.procs[k].active && Timed(d)
    ensures Timed(Died(d, c, k, status, now, out))
  {
    FetchOutcome(d, c, now, out);
    ExitCause(FreeAt(CheckRespawn(d, c, now).0, k), c, status, now);
  }

  lemma NextKeepsTimed(d: D, c: Config, e: Event)
    requires Can(d, e) && Timed(d) && Timeouts(c) && e.now > 0
    ensures Timed(Next(d, c, e))
  {
    match e
    case Handled(now, out) => InitKeepsTimed(d, c, now, out);
    case Alarmed(now, gate, depsFound, out) => AlarmKeepsTimed(d.(alarm := 0), c, now, gate, depsFound, out);
    case ProcDied(now, k, status, out) => DiedKeepsTimed(d, c, k, status, now, out);
    case _ =>
  }

  /** In every run: a daemon that waits for a pid, for its respawn or for its end never waits
      without an alarm to come. */
  lemma {:induction false} NeverStuckWaiting(ds: seq<D>, c: Config, es: seq<Event>, i: nat)
    requires Run(ds, c, es) && i <= |es| && Timeouts(c) && forall e <- es :: e.now > 0
    ensures Timed(ds[i])
  {
    if i > 0 {
      NeverStuckWaiting(ds, c, es, i - 1);
      assert Can(ds[i - 1], es[i - 1]);
      NextKeepsTimed(ds[i - 1], c, es[i - 1]);
    }
  }
}
