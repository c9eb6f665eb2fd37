/**
  The daemon service type: its states, its processes, and what its handlers do when a
  state is entered, when a dependency check or an alarm comes up, and when a process dies.

  Fork, kill, /proc and pid files answer through the `Outside` values.  State changes
  commit at once, as they do for an unlocked service.
 */
module Daemon {

  import opened Basics

  datatype DState =
    | StartMarked | StopMarked | Running | WaitStartDep | WaitStopDep | StartDepsMet | StopDepsMet
    | Kill | Term | Stopped | Launch | WaitPidFile | WaitResp
    | StartDepsFailed | StopDepsFailed | FailRcode | FailSignal | FailLaunch | FailNonexist
    | FailPidTimeout | FailStopping | UpCheckFailed | RateExceeded | ReqNotFound

  predicate IsStarting(s: DState) {
    s in {StartMarked, WaitStartDep, StartDepsMet, Launch, WaitPidFile, WaitResp}
  }

  predicate IsStopping(s: DState) {
    s in {StopMarked, WaitStopDep, StopDepsMet, Kill, Term}
  }

  const PID_TIMEOUT := 60
  const DEFAULT_RESPAWN_RATE := 10
  const DEFAULT_RESPAWN_PAUSE := 1
  const DEFAULT_TERM_TIMEOUT := 30
  const DEFAULT_KILL_TIMEOUT := 2
  const SIGSEGV := 11

  /** The variables set on the service; zero stands for an unset number. */
  datatype Config = Config(
    pidOf: bool, pidFile: bool, forks: bool, respawn: bool, respawnRate: Option<int>,
    respawnPause: Option<int>, termTimeout: int, failOk: bool, stopsBadly: bool)

  datatype Kind = TDaemon | TKill

  datatype Proc = Proc(kind: Kind, pid: int, active: bool)

  /** A daemon.  The last four fields are history: how often a daemon process was launched
      or adopted, how often START_DEPS_MET was entered, how often the dependency check said
      yes in a starting system, and when respawns were granted. */
  datatype D = D(
    st: DState, queued: bool, procs: seq<Proc>, lastRespawn: int, alarm: int, since: int,
    launches: nat, entries: nat, passes: nat, respawns: seq<int>)

  /** What the outside answers during one handler. */
  datatype Outside = Outside(
    foundPid: int,     // pid from pid_of or a pid file
    foundAlive: bool,  // a process with that pid exists
    launched: bool,    // some module took the launch
    newPid: int,       // and this is the process it started
    gone: bool,        // kill(pid, 0) says there is no such process
    goneNext: bool)    // and says so when it is asked a second time

  function Mark(d: D, s: DState, now: int): (r: D) {
    if d.st == s then d
    else d.(st := s, queued := true, alarm := 0, since := now,
            entries := d.entries + if s == StartDepsMet then 1 else 0)
  }

  // -------------------------------------------------------------------- the processes

  /** initng_process_db_get: the first active process of a type. */
  function Find(procs: seq<Proc>, kind: Kind, i: nat): (k: nat)
    requires i <= |procs|
    ensures i <= k <= |procs|
    ensures forall j | i <= j < k :: !(procs[j].active && procs[j].kind == kind)
    ensures k < |procs| ==> procs[k].active && procs[k].kind == kind
    decreases |procs| - i
  {
    if i == |procs| || (procs[i].active && procs[i].kind == kind) then i else Find(procs, kind, i + 1)
  }

  function FreeAt(d: D, k: nat): (r: D)
    requires k < |d.procs|
  {
    d.(procs := d.procs[k := d.procs[k].(active := false)])
  }

  function FreeFirst(d: D, kind: Kind): (r: D) {
    var k := Find(d.procs, kind, 0);
    if k < |d.procs| then FreeAt(d, k) else d
  }

  /** initng_execute_launch: refused while a process of the type is active; a process no
      module would launch is freed again. */
  function Launched(d: D, kind: Kind, out: Outside): (r: (D, bool)) {
    if Find(d.procs, kind, 0) < |d.procs| then (d, false)
    else
      (d.(procs := d.procs + [Proc(kind, if out.launched then out.newPid else 0, out.launched)],
          launches := d.launches + if kind == TDaemon && out.launched then 1 else 0), out.launched)
  }

  /** kill_daemon: a process without a good pid, or that is gone, is only freed. */
  function KillDaemon(d: D, out: Outside): (r: D) {
    var k := Find(d.procs, TDaemon, 0);
    if k < |d.procs| && (d.procs[k].pid <= 0 || out.gone) then FreeAt(d, k) else d
  }

  // ------------------------------------------------------------------------- handlers

  /** init_DAEMON_START_DEPS_MET. */
  function InitStartDepsMet(d: D, c: Config, now: int, out: Outside): (r: D) {
    var d1 := Mark(d, Launch, now);
    if c.pidOf && out.foundPid > 1 && out.foundAlive then
      Mark(d1.(procs := d1.procs + [Proc(TDaemon, out.foundPid, true)], launches := d1.launches + 1), Running, now)
    else
      var (d2, ok) := Launched(d1, TDaemon, out);
      if !ok then Mark(d2, FailLaunch, now)
      else if c.pidFile || c.pidOf then Mark(d2, WaitPidFile, now)
      else if c.forks then d2
      else Mark(d2, Running, now)
  }

  /** What is left of the answers once kill has been asked. */
  function Second(out: Outside): (r: Outside) { out.(gone := out.goneNext) }

  /** init_DAEMON_STOP_DEPS_MET. */
  function InitStopDepsMet(d: D, now: int, out: Outside): (r: D) {
    var k := Find(d.procs, TDaemon, 0);
    if k == |d.procs| then d
    else if d.procs[k].pid <= 0 || out.gone then Mark(d, Stopped, now)
    else
      var (d1, ok) := Launched(d, TKill, out);
      Mark(if ok then d1 else KillDaemon(d1, Second(out)), Term, now)
  }

  /** The init hook of the current state, run when its change is handled. */
  function Init(d: D, c: Config, now: int, out: Outside): (r: D) {
    var d := d.(queued := false);
    match d.st
    case StartMarked => Mark(d, WaitStartDep, now)
    case StopMarked => Mark(d, WaitStopDep, now)
    case StartDepsMet => InitStartDepsMet(d, c, now, out)
    case StopDepsMet => InitStopDepsMet(d, now, out)
    case WaitPidFile => d.(alarm := now + 1)
    case WaitResp => d.(alarm := now + if c.respawnPause.Some? then c.respawnPause.value else DEFAULT_RESPAWN_PAUSE)
    case Term => d.(alarm := now + if c.termTimeout == 0 then DEFAULT_TERM_TIMEOUT else c.termTimeout)
    case Kill => d.(alarm := now + DEFAULT_KILL_TIMEOUT)
    case _ => d
  }

  datatype Verdict = Yes | NotYet | Never

  /** The interrupt handlers of the two waiting states. */
  function Check(d: D, now: int, v: Verdict, sysStarting: bool): (r: D) {
    match d.st
    case WaitStartDep =>
      if v == Never then Mark(d, StartDepsFailed, now)
      else if v == NotYet then d
      else if !sysStarting then Mark(d, Stopped, now)
      else Mark(d.(passes := d.passes + 1), StartDepsMet, now)
    case WaitStopDep => if v == Yes then Mark(d, StopDepsMet, now) else d
    case _ => d
  }

  /** start_service and start_DAEMON; `gate` is the system and restart part of the gate. */
  function Start(d: D, now: int, gate: bool, depsFound: bool): (r: D) {
    if !gate || !(d.st == Stopped || IsStopping(d.st)) then d
    else if !depsFound then Mark(d, ReqNotFound, now)
    else if d.st == WaitStopDep then Mark(d, Running, now)
    else Mark(d, StartMarked, now)
  }

  /** stop_service and stop_DAEMON. */
  function Stop(d: D, now: int): (r: D) {
    if !(d.st == Running || IsStarting(d.st)) then d
    else if d.st == WaitStartDep then Mark(d, Stopped, now)
    else Mark(d, StopMarked, now)
  }

  /** try_get_pid; the up check cannot fail it, since its result is compared with a value
      it never has. */
  function TryGetPid(d: D, c: Config, now: int, out: Outside): (r: (D, bool)) {
    if (!c.pidOf && !c.pidFile) || out.foundPid <= 0 || !out.foundAlive then (d, false)
    else
      var k := Find(d.procs, TDaemon, 0);
      if k == |d.procs| then (Mark(d, UpCheckFailed, now), false)
      else
        var d1 := if c.forks then d.(procs := d.procs[k := d.procs[k].(pid := out.foundPid)]) else d;
        (Mark(d1, Running, now), true)
  }

  /** The alarm handlers. */
  function Alarm(d: D, c: Config, now: int, gate: bool, depsFound: bool, out: Outside): (r: D) {
    match d.st
    case WaitPidFile =>
      if now > d.since + PID_TIMEOUT then
        FreeFirst(KillDaemon(Mark(d, FailPidTimeout, now), out), TDaemon)
      else
        var (d1, ok) := TryGetPid(d, c, now, out);
        if ok then d1 else d1.(alarm := now + 1)
    case WaitResp => Start(Mark(d, Stopped, now), now, gate, depsFound)
    case Term => Mark(KillDaemon(d, out), Kill, now)
    case Kill => KillDaemon(d, out).(alarm := now + DEFAULT_KILL_TIMEOUT)
    case _ => d
  }

  function RateOf(c: Config): (r: int) {
    if c.respawnRate.Some? then c.respawnRate.value else DEFAULT_RESPAWN_RATE
  }

  /** check_respawn; the flag says that the daemon will respawn. */
  function CheckRespawn(d: D, c: Config, now: int): (r: (D, bool)) {
    if d.st != Running || !c.respawn then (d, false)
    else if d.lastRespawn != 0 && RateOf(c) > 0 && now - d.lastRespawn < RateOf(c) then
      (Mark(d, RateExceeded, now), false)
    else (Mark(d.(lastRespawn := now, respawns := d.respawns + [now]), WaitResp, now), true)
  }

  /** A wait status: the terminating signal and the exit code. */
  datatype Status = Status(signal: int, code: int)

  /** handle_killed_daemon for process `k`, and the plain free for a kill process. */
  function Died(d: D, c: Config, k: nat, status: Status, now: int, out: Outside): (r: D)
    requires k < |d.procs| && d.procs[k].active
  {
    if d.procs[k].kind == TKill then FreeAt(d, k)
    else if d.st == WaitPidFile && c.forks then TryGetPid(d, c, now, out).0
    else
      var (d1, respawns) := CheckRespawn(d, c, now);
      var d2 := FreeAt(d1, k);
      if respawns then d2 else Exited(d2, c, status, now)
  }

  function Exited(d: D, c: Config, status: Status, now: int): (r: D) {
    if status.signal == SIGSEGV then Mark(d, FailSignal, now)
    else if status.code == 0 || c.failOk || (IsStopping(d.st) && c.stopsBadly) then Mark(d, Stopped, now)
    else Mark(d, FailRcode, now)
  }

  // ------------------------------------------------------------------------ every run

  /** A moment in the life of a daemon.  A state change is handled once; an alarm goes off
      once it is due; a process dies while it is active; freed processes are cleared away. */
  datatype Event =
    | Command(now: int, start: bool, gate: bool, depsFound: bool)
    | Handled(now: int, out: Outside)
    | Checked(now: int, v: Verdict, sysStarting: bool)
    | Alarmed(now: int, gate: bool, depsFound: bool, out: Outside)
    | ProcDied(now: int, k: nat, status: Status, out: Outside)
    | Cleared(now: int)

  predicate Can(d: D, e: Event) {
    match e
    case Handled(_, _) => d.queued
    case Alarmed(now, _, _, _) => d.alarm != 0 && now >= d.alarm
    case ProcDied(_, k, _, _) => k < |d.procs| && d.procs[k].active
    case _ => true
  }

  function Next(d: D, c: Config, e: Event): (r: D)
    requires Can(d, e)
  {
    match e
    case Command(now, start, gate, depsFound) => if start then Start(d, now, gate, depsFound) else Stop(d, now)
    case Handled(now, out) => Init(d, c, now, out)
    case Checked(now, v, sysStarting) => Check(d, now, v, sysStarting)
    case Alarmed(now, gate, depsFound, out) => Alarm(d.(alarm := 0), c, now, gate, depsFound, out)
    case ProcDied(now, k, status, out) => Died(d, c, k, status, now, out)
    case Cleared(_) => d.(procs := ActiveOf(d.procs))
  }

  function ActiveOf(procs: seq<Proc>): (r: seq<Proc>) {
    if procs == [] then []
    else if procs[0].active then [procs[0]] + ActiveOf(procs[1..]) else ActiveOf(procs[1..])
  }

  // ------------------------------------------------------------ launches and their causes

  /** A daemon process comes about only when START_DEPS_MET is handled, one at a time; and
      that state is entered only from the wait for start dependencies, by a check that said
      yes in a starting system. */
  lemma LaunchHasCause(d: D, c: Config, e: Event)
    requires Can(d, e)
    ensures var r := Next(d, c, e);
            && (r.launches != d.launches ==> e.Handled? && d.st == StartDepsMet && r.st != StartDepsMet && r.launches == d.launches + 1)
            && (r.st == StartDepsMet && d.st != StartDepsMet ==>
                  e.Checked? && d.st == WaitStartDep && e.v == Yes && e.sysStarting)
            && r.entries - d.entries == r.passes - d.passes == (if r.st == StartDepsMet && d.st != StartDepsMet then 1 else 0)
            && (d.st == StartDepsMet && r.st == StartDepsMet ==> r.launches == d.launches)
  {
    match e
    case Alarmed(now, gate, depsFound, out) => AlarmCause(d.(alarm := 0), c, now, gate, depsFound, out);
    case ProcDied(now, k, status, out) => DiedCause(d, c, k, status, now, out);
    case Handled(now, out) => InitCause(d, c, now, out);
    case _ =>
  }

  /** A launch never answers "fail", a stop check never fails for good, and a respawn that
      comes too soon is at once followed by the mark for the process's exit. */
  predicate NeverEntered(s: DState) {
    s in {FailNonexist, FailStopping, StopDepsFailed, RateExceeded}
  }

  /** No launch and no respawn happened, and no state was entered that needs a reason. */
  predicate Quiet(d: D, r: D) {
    && NoLaunch(d, r)
    && r.respawns == d.respawns && r.lastRespawn == d.lastRespawn
  }

  predicate NoLaunch(d: D, r: D) {
    && r.launches == d.launches && r.entries == d.entries && r.passes == d.passes
    && (r.st == StartDepsMet ==> d.st == StartDepsMet)
    && (NeverEntered(r.st) ==> NeverEntered(d.st))
  }

  lemma KillQuiet(d: D, out: Outside)
    ensures Quiet(d, KillDaemon(d, out)) && KillDaemon(d, out).st == d.st
  {
  }

  lemma MarkQuiet(d: D, s: DState, now: int)
    requires s != StartDepsMet && !NeverEntered(s)
    ensures Quiet(d, Mark(d, s, now))
  {
  }

  lemma TryQuiet(d: D, c: Config, now: int, out: Outside)
    ensures Quiet(d, TryGetPid(d, c, now, out).0)
  {
  }

  lemma AlarmCause(d: D, c: Config, now: int, gate: bool, depsFound: bool, out: Outside)
    ensures Quiet(d, Alarm(d, c, now, gate, depsFound, out))
  {
    match d.st
    case WaitPidFile =>
      if now > d.since + PID_TIMEOUT {
        MarkQuiet(d, FailPidTimeout, now);
        KillQuiet(Mark(d, FailPidTimeout, now), out);
      } else {
        TryQuiet(d, c, now, out);
      }
    case WaitResp => MarkQuiet(d, Stopped, now);
    case Term => KillQuiet(d, out);
    case Kill => KillQuiet(d, out);
    case _ =>
  }

  lemma DiedCause(d: D, c: Config, k: nat, status: Status, now: int, out: Outside)
    requires k < |d.procs| && d.procs[k].active
    ensures NoLaunch(d, Died(d, c, k, status, now, out))
  {
    TryQuiet(d, c, now, out);
    ExitCause(FreeAt(CheckRespawn(d, c, now).0, k), c, status, now);
  }

  lemma ExitCause(d: D, c: Config, status: Status, now: int)
    ensures var r := Exited(d, c, status, now);
            r.st in {FailSignal, Stopped, FailRcode} && r.procs == d.procs &&
            r.launches == d.launches && r.entries == d.entries && r.passes == d.passes &&
            r.respawns == d.respawns && r.lastRespawn == d.lastRespawn
  {
  }

  lemma InitCause(d: D, c: Config, now: int, out: Outside)
    ensures var r := Init(d, c, now, out);
            && (d.st != StartDepsMet ==> Quiet(d, r))
            && (d.st == StartDepsMet ==>
                  && d.launches <= r.launches <= d.launches + 1 && r.entries == d.entries && r.passes == d.passes
                  && r.st != StartDepsMet && !NeverEntered(r.st)
                  && r.respawns == d.respawns && r.lastRespawn == d.lastRespawn)
  {
    if d.st == StopDepsMet {
      var d1 := Launched(d.(queued := false), TKill, out).0;
      KillQuiet(d1, Second(out));
    }
  }

  // -------------------------------------------------------------- one process of a type

  predicate AtMostOne(procs: seq<Proc>) {
    forall i, j | 0 <= i < j < |procs| && procs[i].active && procs[j].active :: procs[i].kind != procs[j].kind
  }

  lemma LaunchedKeepsOne(d: D, kind: Kind, out: Outside)
    requires AtMostOne(d.procs)
    ensures AtMostOne(Launched(d, kind, out).0.procs)
  {
    var r := Launched(d, kind, out).0.procs;
    assert forall i | 0 <= i < |d.procs| && i < |r| :: r[i] == d.procs[i];
  }

  lemma FreedKeepsOne(d: D, k: nat)
    requires AtMostOne(d.procs) && k < |d.procs|
    ensures AtMostOne(FreeAt(d, k).procs)
  {
  }

  lemma {:induction false} ActiveMember(procs: seq<Proc>, i: nat) returns (k: nat)
    requires i < |ActiveOf(procs)|
    ensures k < |procs| && procs[k] == ActiveOf(procs)[i] && procs[k].active
    decreases |procs|
  {
    if procs[0].active {
      if i == 0 { k := 0; } else { k := ActiveMember(procs[1..], i - 1); k := k + 1; }
    } else {
      k := ActiveMember(procs[1..], i);
      k := k + 1;
    }
  }

  lemma {:induction false} ClearedKeepsOne(procs: seq<Proc>)
    requires AtMostOne(procs)
    ensures AtMostOne(ActiveOf(procs))
    decreases |procs|
  {
    if procs != [] {
      assert forall i | 0 <= i < |procs[1..]| :: procs[1..][i] == procs[i + 1];
      ClearedKeepsOne(procs[1..]);
      if procs[0].active {
        var rest := ActiveOf(procs[1..]);
        forall i, j | 0 <= i < j < |[procs[0]] + rest| && ([procs[0]] + rest)[i].active && ([procs[0]] + rest)[j].active
          ensures ([procs[0]] + rest)[i].kind != ([procs[0]] + rest)[j].kind
        {
          assert ([procs[0]] + rest)[j] == rest[j - 1];
          if i == 0 { var k := ActiveMember(procs[1..], j - 1); }
          else { assert ([procs[0]] + rest)[i] == rest[i - 1]; }
        }
      }
    }
  }

  /** A running process found by name is added beside one that is still listed as active. */
  predicate AdoptsSecond(d: D, c: Config, out: Outside) {
    d.st == StartDepsMet && c.pidOf && out.foundPid > 1 && out.foundAlive && Find(d.procs, TDaemon, 0) < |d.procs|
  }

  lemma InitKeepsOne(d: D, c: Config, now: int, out: Outside)
    requires AtMostOne(d.procs)
    ensures AtMostOne(Init(d, c, now, out).procs) <==> !AdoptsSecond(d, c, out)
  {
    var d0 := d.(queued := false);
    match d.st
    case StartDepsMet =>
      if c.pidOf && out.foundPid > 1 && out.foundAlive {
        var r := Init(d, c, now, out).procs;
        assert r == d.procs + [Proc(TDaemon, out.foundPid, true)];
        var k := Find(d.procs, TDaemon, 0);
        if k < |d.procs| { assert r[k].active && r[|d.procs|].active && r[k].kind == r[|d.procs|].kind; }
      } else {
        LaunchedKeepsOne(Mark(d0, Launch, now), TDaemon, out);
      }
    case StopDepsMet => StopKeepsOne(d0, now, out);
    case _ =>
  }

  lemma StopKeepsOne(d: D, now: int, out: Outside)
    requires AtMostOne(d.procs)
    ensures AtMostOne(InitStopDepsMet(d, now, out).procs)
  {
    LaunchedKeepsOne(d, TKill, out);
    KillKeepsOne(Launched(d, TKill, out).0, Second(out));
  }

  lemma KillKeepsOne(d: D, out: Outside)
    requires AtMostOne(d.procs)
    ensures AtMostOne(KillDaemon(d, out).procs)
  {
    var k := Find(d.procs, TDaemon, 0);
    if k < |d.procs| { FreedKeepsOne(d, k); }
  }

  lemma TryKeepsOne(d: D, c: Config, now: int, out: Outside)
    requires AtMostOne(d.procs)
    ensures AtMostOne(TryGetPid(d, c, now, out).0.procs)
  {
  }

  lemma AlarmKeepsOne(d: D, c: Config, now: int, gate: bool, depsFound: bool, out: Outside)
    requires AtMostOne(d.procs)
    ensures AtMostOne(Alarm(d, c, now, gate, depsFound, out).procs)
  {
    match d.st
    case WaitPidFile =>
      if now > d.since + PID_TIMEOUT {
        var d1 := KillDaemon(Mark(d, FailPidTimeout, now), out);
        KillKeepsOne(Mark(d, FailPidTimeout, now), out);
        var k := Find(d1.procs, TDaemon, 0);
        if k < |d1.procs| { FreedKeepsOne(d1, k); }
      } else {
        TryKeepsOne(d, c, now, out);
      }
    case Term => KillKeepsOne(d, out);
    case Kill => KillKeepsOne(d, out);
    case _ =>
  }

  lemma DiedKeepsOne(d: D, c: Config, k: nat, status: Status, now: int, out: Outside)
    requires k < |d.procs| && d.procs[k].active && AtMostOne(d.procs)
    ensures AtMostOne(Died(d, c, k, status, now, out).procs)
  {
    FreedKeepsOne(d, k);
    TryKeepsOne(d, c, now, out);
    assert CheckRespawn(d, c, now).0.procs == d.procs;
  }

  /** Exactly one thing puts a second active process of a type on the list. */
  lemma NextKeepsOne(d: D, c: Config, e: Event)
    requires Can(d, e) && AtMostOne(d.procs)
    ensures AtMostOne(Next(d, c, e).procs) <==> !(e.Handled? && AdoptsSecond(d, c, e.out))
  {
    match e
    case Handled(now, out) => InitKeepsOne(d, c, now, out);
    case Alarmed(now, gate, depsFound, out) => AlarmKeepsOne(d.(alarm := 0), c, now, gate, depsFound, out);
    case ProcDied(now, k, status, out) => DiedKeepsOne(d, c, k, status, now, out);
    case Cleared(_) => ClearedKeepsOne(d.procs);
    case _ =>
  }

  // ------------------------------------------------------------------- states never entered

  lemma NextAvoids(d: D, c: Config, e: Event)
    requires Can(d, e) && !NeverEntered(d.st)
    ensures !NeverEntered(Next(d, c, e).st)
  {
    match e
    case Alarmed(now, gate, depsFound, out) => AlarmCause(d.(alarm := 0), c, now, gate, depsFound, out);
    case ProcDied(now, k, status, out) => DiedCause(d, c, k, status, now, out);
    case Handled(now, out) => InitCause(d, c, now, out);
    case _ =>
  }

  // -------------------------------------------------------------------------- whole runs

  predicate Fresh(d: D) {
    && d.st == Stopped && d.procs == [] && d.lastRespawn == 0
    && d.launches == 0 && d.entries == 0 && d.passes == 0 && d.respawns == []
  }

  predicate Run(ds: seq<D>, c: Config, es: seq<Event>) {
    && |ds| == |es| + 1 && Fresh(ds[0])
    && forall i {:trigger Can(ds[i], es[i])} | 0 <= i < |es| :: Can(ds[i], es[i]) && ds[i + 1] == Next(ds[i], c, es[i])
  }

  /** In every run: no more daemon processes come about than START_DEPS_MET was entered,
      which is as often as the dependency check said yes in a starting system; four of the
      states are never seen; and without `pid_of` no two processes of a type are active. */
  lemma {:induction false} LaunchesAreEarned(ds: seq<D>, c: Config, es: seq<Event>, i: nat)
    requires Run(ds, c, es) && i <= |es|
    ensures ds[i].launches + (if ds[i].st == StartDepsMet then 1 else 0) <= ds[i].entries == ds[i].passes
    ensures !NeverEntered(ds[i].st)
    ensures !c.pidOf ==> AtMostOne(ds[i].procs)
  {
    if i > 0 {
      LaunchesAreEarned(ds, c, es, i - 1);
      assert Can(ds[i - 1], es[i - 1]);
      LaunchHasCause(ds[i - 1], c, es[i - 1]);
      NextAvoids(ds[i - 1], c, es[i - 1]);
      if !c.pidOf { NextKeepsOne(ds[i - 1], c, es[i - 1]); }
    }
  }

  // -------------------------------------------------------------------- the respawn rate

  /** Granted respawns, and the last of them on record; none lies in the future. */
  predicate Spaced(d: D, c: Config, now: int) {
    && (d.lastRespawn == 0 <==> d.respawns == [])
    && (d.respawns != [] ==> d.respawns[|d.respawns| - 1] == d.lastRespawn && 0 < d.lastRespawn <= now)
    && (forall i | 0 <= i < |d.respawns| - 1 :: d.respawns[i + 1] - d.respawns[i] >= RateOf(c))
  }

  lemma OnlyDeathsRespawn(d: D, c: Config, e: Event)
    requires Can(d, e) && !e.ProcDied?
    ensures Next(d, c, e).lastRespawn == d.lastRespawn && Next(d, c, e).respawns == d.respawns
  {
    match e
    case Alarmed(now, gate, depsFound, out) => AlarmCause(d.(alarm := 0), c, now, gate, depsFound, out);
    case Handled(now, out) => InitCause(d, c, now, out);
    case _ =>
  }

  lemma DiedRespawns(d: D, c: Config, k: nat, status: Status, now: int, out: Outside)
    requires k < |d.procs| && d.procs[k].active
    ensures var r := Died(d, c, k, status, now, out);
            || (r.respawns == d.respawns && r.lastRespawn == d.lastRespawn)
            || (r.respawns == d.respawns + [now] && r.lastRespawn == now &&
                !(d.lastRespawn != 0 && RateOf(c) > 0 && now - d.lastRespawn < RateOf(c)))
  {
    TryQuiet(d, c, now, out);
    ExitCause(FreeAt(CheckRespawn(d, c, now).0, k), c, status, now);
  }

  lemma NextKeepsSpaced(d: D, c: Config, e: Event, before: int)
    requires Can(d, e) && Spaced(d, c, before) && 0 < before <= e.now && RateOf(c) > 0
    ensures Spaced(Next(d, c, e), c, e.now)
  {
    if e.ProcDied? {
      DiedRespawns(d, c, e.k, e.status, e.now, e.out);
    } else {
      OnlyDeathsRespawn(d, c, e);
    }
  }

  /** In every run on a clock that does not go back: two successive respawns of the daemon
      are at least the respawn rate apart. */
  lemma {:induction false} RespawnsAreSpaced(ds: seq<D>, c: Config, es: seq<Event>, i: nat)
    requires Run(ds, c, es) && i <= |es| && RateOf(c) > 0
    requires forall k | 0 <= k < |es| :: 0 < es[k].now
    requires forall k | 0 <= k < |es| - 1 :: es[k].now <= es[k + 1].now
    ensures Spaced(ds[i], c, if i == 0 then 1 else es[i - 1].now)
  {
    if i > 0 {
      RespawnsAreSpaced(ds, c, es, i - 1);
      assert Can(ds[i - 1], es[i - 1]) && 0 < es[i - 1].now;
      NextKeepsSpaced(ds[i - 1], c, es[i - 1], if i == 1 then 1 else es[i - 2].now);
    }
  }

  // ------------------------------------------------------------- two daemons with pid_of

  lemma Extend(ds: seq<D>, c: Config, es: seq<Event>, e: Event)
    requires Run(ds, c, es) && Can(ds[|es|], e)
    ensures Run(ds + [Next(ds[|es|], c, e)], c, es + [e])
  {
    var ds', es' := ds + [Next(ds[|es|], c, e)], es + [e];
    forall i | 0 <= i < |es'| ensures Can(ds'[i], es'[i]) && ds'[i + 1] == Next(ds'[i], c, es'[i]) {
      if i < |es| { assert Can(ds[i], es[i]); }
    }
  }

  lemma Walk(ds: seq<D>, c: Config, es: seq<Event>, more: seq<Event>) returns (ds': seq<D>)
    requires Run(ds, c, es) && Cans(ds[|es|], c, more)
    ensures Run(ds', c, es + more) && ds'[0] == ds[0] && ds'[|es| + |more|] == Nexts(ds[|es|], c, more)
    decreases |more|
  {
    if more == [] {
      assert es + more == es;
      ds' := ds;
    } else {
      Extend(ds, c, es, more[0]);
      assert es + [more[0]] + more[1..] == es + more;
      ds' := Walk(ds + [Next(ds[|es|], c, more[0])], c, es + [more[0]], more[1..]);
    }
  }

  predicate Cans(d: D, c: Config, es: seq<Event>)
    decreases |es|
  {
    es != [] ==> Can(d, es[0]) && Cans(Next(d, c, es[0]), c, es[1..])
  }

  function Nexts(d: D, c: Config, es: seq<Event>): (r: D)
    requires Cans(d, c, es)
    decreases |es|
  {
    if es == [] then d else Nexts(Next(d, c, es[0]), c, es[1..])
  }

  /** A start that finds a process by name, and a stop that finds that process gone. */
  function Adopt(pid: int): (es: seq<Event>) {
    var found := Outside(pid, true, false, 0, false, false);
    [Command(1, true, true, true), Handled(1, found), Checked(1, Yes, true), Handled(1, found)]
  }

  function StopGone(): (es: seq<Event>) {
    var gone := Outside(0, false, false, 0, true, true);
    [Command(1, false, true, true), Handled(1, gone), Checked(1, Yes, true), Handled(1, gone)]
  }

  lemma StepFirst(d: D, c: Config, e: Event, rest: seq<Event>)
    requires Can(d, e) && Cans(Next(d, c, e), c, rest)
    ensures Cans(d, c, [e] + rest) && Nexts(d, c, [e] + rest) == Nexts(Next(d, c, e), c, rest)
  {
    assert ([e] + rest)[1..] == rest;
  }

  lemma FourSteps(d: D, c: Config, es: seq<Event>)
    requires |es| == 4 && Can(d, es[0])
    requires var d1 := Next(d, c, es[0]);
             Can(d1, es[1]) && var d2 := Next(d1, c, es[1]); Can(d2, es[2]) && Can(Next(d2, c, es[2]), es[3])
    ensures Cans(d, c, es)
    ensures Nexts(d, c, es) == Next(Next(Next(Next(d, c, es[0]), c, es[1]), c, es[2]), c, es[3])
  {
    var d1 := Next(d, c, es[0]);
    var d2 := Next(d1, c, es[1]);
    StepFirst(Next(d2, c, es[2]), c, es[3], []);
    StepFirst(d2, c, es[2], [es[3]] + []);
    StepFirst(d1, c, es[1], [es[2]] + ([es[3]] + []));
    StepFirst(d, c, es[0], [es[1]] + ([es[2]] + ([es[3]] + [])));
    assert es == [es[0]] + ([es[1]] + ([es[2]] + ([es[3]] + [])));
  }

  lemma Adopted(d: D, c: Config, pid: int)
    requires d.st == Stopped && c.pidOf && pid > 1
    ensures Cans(d, c, Adopt(pid))
    ensures var r := Nexts(d, c, Adopt(pid)); r.st == Running && r.procs == d.procs + [Proc(TDaemon, pid, true)]
  {
    var es := Adopt(pid);
    FourSteps(d, c, es);
  }

  lemma StoppedGone(d: D, c: Config)
    requires d.st == Running && Find(d.procs, TDaemon, 0) < |d.procs|
    ensures Cans(d, c, StopGone())
    ensures var r := Nexts(d, c, StopGone()); r.st == Stopped && r.procs == d.procs
  {
    var es := StopGone();
    FourSteps(d, c, es);
  }

  /** With `pid_of`, a run can list two active daemon processes: a stop that finds the process
      gone leaves it on the list, and the next start adopts one beside it. */
  lemma TwoDaemons(d: D, c: Config, pid: int) returns (ds: seq<D>, es: seq<Event>)
    requires Fresh(d) && c.pidOf && pid > 1
    ensures Run(ds, c, es) && ds[0] == d && !AtMostOne(ds[|es|].procs)
  {
    es := Adopt(pid);
    Adopted(d, c, pid);
    ds := Walk([d], c, [], es);
    assert [] + es == es;
    var d1 := ds[4];
    assert d1.procs == [Proc(TDaemon, pid, true)];
    StoppedGone(d1, c);
    ds := Walk(ds, c, es, StopGone());
    es := es + StopGone();
    var d2 := ds[8];
    Adopted(d2, c, pid);
    ds := Walk(ds, c, es, Adopt(pid));
    es := es + Adopt(pid);
    assert ds[12].procs == [Proc(TDaemon, pid, true), Proc(TDaemon, pid, true)];
    assert ds[12].procs[0].kind == ds[12].procs[1].kind;
  }
}
