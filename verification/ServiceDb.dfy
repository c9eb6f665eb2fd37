/**
  The start, stop and restart handlers in place, on a database of services whose
  states, flags and interrupt list are fields that the methods overwrite.
 */
module ServiceDb {
  import opened Basics
  import opened Entries
  import opened ServiceState
  import opened StartService
  import opened RestartBarrier

  class Db {
    const names: seq<Name>          // registration order, the order of every walk
    var svc: map<Name, Svc>
    var queue: seq<Name>
    var info: map<Name, Info>
    var starting: bool

    constructor (names: seq<Name>, svc: map<Name, Svc>, info: map<Name, Info>, starting: bool)
      ensures View() == World(Sys(svc, []), info, starting) && this.names == names
    {
      this.names, this.svc, this.queue, this.info, this.starting := names, svc, [], info, starting;
    }

    ghost function View(): (w: World)
      reads this
    {
      World(Sys(svc, queue), info, starting)
    }

    method Unlock(s: Name) returns (changed: bool)
      requires s in svc
      modifies this`svc, this`queue
      ensures (View().y, changed) == DoUnlock(old(View().y), s)
    {
      var a := svc[s];
      if a.lock > 1 {
        svc := svc[s := a.(lock := a.lock - 1)];
        return false;
      }
      if a.next.None? {
        svc := svc[s := a.(lock := 0)];
        return false;
      }
      svc := svc[s := CommitSvc(a)];
      if s !in queue { queue := [s] + queue; }
      return true;
    }

    method Mark(s: Name, st: State) returns (accepted: bool)
      requires s in svc
      modifies this`svc, this`queue
      ensures View() == MarkIn(old(View()), s, st)
      ensures accepted == DoMark(old(View().y), s, st).1
    {
      var a := svc[s];
      if a.lock > 0 && a.next.Some? { return false; }
      if a.current == st {
        svc := svc[s := a.(next := None)];
        return true;
      }
      svc := svc[s := a.(next := Some(st))];
      if a.lock == 0 { var _ := Unlock(s); }
      return true;
    }

    /** initng_handler_start_service; `rank` only measures the recursion. */
    method StartService(s: Name, ghost rank: map<Name, nat>) returns (ok: bool)
      requires Valid(View()) && Ranked(View().info, rank) && s in svc
      modifies this`svc, this`queue
      ensures View() == Start(old(View()), s, rank).w
      ensures ok == Start(old(View()), s, rank).ok
      ensures Unlocked(old(View())) && Gate(old(View()), s) ==> StartedRight(old(View()), s, View())
      decreases rank[s], 1, 0
    {
      if Unlocked(View()) && Gate(View(), s) { StartsRight(View(), s, rank); }
      if !info[s].typed { return false; }
      if !starting { return false; }
      if info[s].restarting { return false; }
      match svc[s].current.rough {
        case Starting | Waiting => return true;
        case Failed => return false;
        case Up => return true;
        case New => return true;
        case Stopping | Down =>
      }
      ok := StartDeps(s, rank);
      if !ok { return false; }
      ok := StartDaemon(s);
    }

    method StartDaemon(s: Name) returns (ok: bool)
      requires s in svc
      modifies this`svc, this`queue
      ensures View() == MarkIn(old(View()), s, StartMark(old(svc)[s].current))
      ensures ok == DaemonAnswer(old(View().y), s)
    {
      if svc[s].current == WAITING_FOR_STOP_DEP {
        var _ := Mark(s, RUNNING);
        return true;
      }
      ok := Mark(s, START_MARKED);
    }

    /** initng_depend_start_deps. */
    method StartDeps(s: Name, ghost rank: map<Name, nat>) returns (ok: bool)
      requires Valid(View()) && Ranked(View().info, rank) && s in svc
      modifies this`svc, this`queue
      ensures var d := WalkDeps(old(View()), s, 0, rank);
              && ok == d.ok
              && View() == if d.ok then d.w else MarkIn(d.w, s, REQ_NOT_FOUND)
      decreases rank[s], 0, 0
    {
      var entries := info[s].entries;
      var i := 0;
      while i < |entries|
        invariant 0 <= i <= |entries|
        invariant View().info == old(View().info) && svc.Keys == old(svc.Keys)
        invariant WalkDeps(View(), s, i, rank).w == WalkDeps(old(View()), s, 0, rank).w
        invariant WalkDeps(View(), s, i, rank).ok == WalkDeps(old(View()), s, 0, rank).ok
      {
        var e := entries[i];
        if IsDep(e) {
          var t := e.target.value;
          if t in svc {
            if svc[t].current.rough == Down {
              assert Falls(View().info, rank, s, e);
              var _ := StartService(t, rank);
            }
          } else if e.kind == Require {
            var _ := Mark(s, REQ_NOT_FOUND);
            return false;
          }
        }
        i := i + 1;
      }
      return true;
    }

    /** Is any flagged service still stopping? */
    method AnyFlaggedStopping() returns (found: bool)
      requires Valid(View())
      requires forall k | 0 <= k < |names| :: names[k] in info
      requires forall t | t in info :: t in names
      ensures found == BatchStopping(View())
    {
      var i := 0;
      while i < |names|
        invariant 0 <= i <= |names|
        invariant forall k | 0 <= k < i :: !FlagStopping(View(), names[k])
      {
        if svc[names[i]].current.rough == Stopping && info[names[i]].restarting {
          assert FlagStopping(View(), names[i]);
          return true;
        }
        i := i + 1;
      }
      return false;
    }

    /** One service of the second loop. */
    method RestartIfDown(s: Name, ghost rank: map<Name, nat>)
      requires Valid(View()) && Ranked(View().info, rank) && s in info
      modifies this`svc, this`queue, this`info
      ensures View() == RestartIf(old(View()), s, rank)
    {
      if svc[s].current.rough == Down && info[s].restarting {
        FlagKeepsRanks(View(), s, false, rank);
        info := info[s := info[s].(restarting := false)];
        var _ := StartService(s, rank);
      }
    }

    /** Both loops. */
    method RunBarrier(ghost rank: map<Name, nat>)
      requires Valid(View()) && Ranked(View().info, rank)
      requires forall k | 0 <= k < |names| :: names[k] in info
      requires forall t | t in info :: t in names
      modifies this`svc, this`queue, this`info
      ensures View() == RestartRestarting(old(View()), names, rank)
    {
      var wait := AnyFlaggedStopping();
      if wait { return; }
      var i := 0;
      while i < |names|
        invariant 0 <= i <= |names|
        invariant Valid(View()) && Ranked(View().info, rank) && info.Keys == old(info.Keys)
        invariant RestartFrom(View(), names, i, rank) == RestartFrom(old(View()), names, 0, rank)
      {
        RestartIfDown(names[i], rank);
        i := i + 1;
      }
    }

    /** initng_handler_restart_restarting. */
    method RestartAll(ghost rank: map<Name, nat>)
      requires Valid(View()) && Ranked(View().info, rank)
      requires forall k | 0 <= k < |names| :: names[k] in info
      requires forall t | t in info :: t in names
      modifies this`svc, this`queue, this`info
      ensures View() == RestartRestarting(old(View()), names, rank)
      ensures PassStarted(old(View()), View())
    {
      AllStarted(View(), names, rank);
      RunBarrier(rank);
    }
  }
}
