/**
  The time of a daemon's last respawn, kept as one of the service's variables: read and set
  through the store, whose laws make it the field that module Daemon works with.
 */
module RespawnRecord {

  import opened Basics
  import opened Daemon
  import Data = DataStore

  /** What the store says of the last respawn; zero if it was never set. */
  ghost function Recorded(chain: seq<Data.Store>, t: Data.Type): (last: int)
    reads chain, Data.All(chain)
  {
    var e := Data.Lookup(chain, t, None);
    if e != null && e in Data.All(chain) && e.value.Number? then e.value.i else 0
  }

  lemma LookupIsThere(chain: seq<Data.Store>, t: Data.Type)
    ensures var e := Data.Lookup(chain, t, None); e != null ==> e in Data.All(chain)
  {
  }

  /** check_respawn, on the service's variables.  `d` is the daemon as module Daemon sees it:
      what the store records before is its last respawn, and what it records after is the
      last respawn of the daemon that module's check_respawn leaves; no other variable
      changes. */
  method CheckRespawn(st: DState, c: Config, now: int, t: Data.Type, data: Data.Store,
                      ghost d: D, ghost chain: seq<Data.Store>, ghost all: seq<Data.Entry>)
    returns (granted: bool, next: DState)
    requires Data.Chained(data, chain) && Data.All(chain) == all && Distinct(all)
    requires Data.Accepts(Some(t), None, Data.INT)
    requires d.st == st && d.lastRespawn == Recorded(chain, t)
    modifies data, all
    ensures Data.Chained(data, chain) && Distinct(Data.All(chain))
    ensures var (r, ok) := Daemon.CheckRespawn(d, c, now);
            granted == ok && next == r.st && Recorded(chain, t) == r.lastRespawn
    ensures forall i | 0 <= i < |all| && all[i] != Data.Lookup(chain, t, None) :: all[i].value == old(all[i].value)
  {
    LookupIsThere(chain, t);
    if st != Running { return false, st; }
    if !c.respawn { return false, st; }
    var last := Data.GetIntVar(t, None, data, chain);
    var rate := DEFAULT_RESPAWN_RATE;
    if c.respawnRate.Some? { rate := c.respawnRate.value; }
    if last != 0 && rate > 0 {
      if now - last < rate { return false, RateExceeded; }
    }
    var _ := Data.SetValue(Some(t), None, data, Data.Number(now), Data.INT, chain, all);
    LookupIsThere(chain, t);
    return true, WaitResp;
  }
}
