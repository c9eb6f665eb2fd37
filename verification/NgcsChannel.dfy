/**
  The channels of a connection: closing one, deleting one, the peer closing one, and the
  connection closing under all of them, with callbacks that call back into all of this, for
  any channel.

  Channels are numbered in the order in which the connection's list is walked.  The counters
  of a channel are history: how often each callback ran and how often it was unlinked and
  freed; `had` says that it was registered with a close callback, and `cut` that it was
  deleted between its close and the peer's answer, with that callback still to run.  `stale`
  says that the memory of a freed channel was touched.
 */
module NgcsChannel {

  datatype CloseState = Open | Closing | Closed

  datatype Chan = Chan(
    st: CloseState, isFreed: bool, isFreeing: bool, gotData: bool, onClose: bool,
    linked: bool, live: bool, closeRuns: nat, freeRuns: nat, unlinks: nat, frees: nat, had: bool, cut: bool)

  datatype Conn = Conn(open: bool, chans: seq<Chan>, stale: bool)

  /** What a callback may do: close or delete a channel, where `fails` says that sending the
      close message breaks the connection, or make any other send that breaks it. */
  datatype Op = CloseIt(k: nat, fails: bool) | DeleteIt(k: nat, fails: bool) | Break

  /** What a channel's callbacks do, when they are called. */
  datatype Callbacks = Callbacks(onClose: seq<Op>, onFree: seq<Op>)

  function NewChan(hasOnClose: bool): (c: Chan) {
    Chan(Open, false, false, true, hasOnClose, true, true, 0, 0, 0, 0, hasOnClose, false)
  }

  // ------------------------------------------------------------------ what can still run

  function B(b: bool): (n: nat) { if b then 1 else 0 }

  /** One while the close callback may still run. */
  function MayClose(c: Chan): (n: nat) { B(c.onClose && c.st != Closed) }

  /** One while the free callback may still run. */
  function MayFree(c: Chan): (n: nat) { B(!c.isFreed) }

  function Left(c: Chan): (n: nat) { MayClose(c) + MayFree(c) }

  function Sum(cs: seq<Chan>): (n: nat) {
    if cs == [] then 0 else Sum(cs[..|cs| - 1]) + Left(cs[|cs| - 1])
  }

  lemma {:induction false} SumMono(cs: seq<Chan>, ds: seq<Chan>)
    requires |cs| == |ds| && forall k | 0 <= k < |cs| :: Left(ds[k]) <= Left(cs[k])
    ensures Sum(ds) <= Sum(cs)
    ensures (exists k | 0 <= k < |cs| :: Left(ds[k]) < Left(cs[k])) ==> Sum(ds) < Sum(cs)
    decreases |cs|
  {
    if cs != [] {
      var m := |cs| - 1;
      SumMono(cs[..m], ds[..m]);
      if exists k | 0 <= k < |cs| :: Left(ds[k]) < Left(cs[k]) {
        var k :| 0 <= k < |cs| && Left(ds[k]) < Left(cs[k]);
        if k < m { assert Left(ds[..m][k]) < Left(cs[..m][k]); }
      }
    }
  }

  /** The close callback has had its one run, or has it still to come; unless the channel was
      deleted in between, and then it never runs. */
  predicate Once(c: Chan) {
    && (c.onClose ==> c.had) && (!c.had ==> c.closeRuns == 0)
    && (c.cut ==> c.had && c.closeRuns == 0 && c.isFreed && c.st != Open)
    && (c.had && !c.cut ==> c.closeRuns + MayClose(c) == 1)
    && (c.isFreed && MayClose(c) == 1 ==> c.cut)
  }

  /** What a deletion leaves behind: the free callback has run, and the channel is gone or
      waits for the peer. */
  predicate Done(c: Chan) {
    && (c.isFreed ==> c.st != Open)
    && (c.isFreeing ==> c.isFreed && (c.st == Closed ==> !c.live))
  }

  /** What every operation keeps of a channel: each callback run uses up its one chance;
      unlinking and freeing happen together and once; and a channel never opens again. */
  predicate Counts(c: Chan, d: Chan) {
    && d.had == c.had && (Once(c) ==> Once(d))
    && (d.onClose ==> c.onClose) && (d.gotData ==> c.gotData) && (c.isFreeing ==> d.isFreeing)
    && d.closeRuns + MayClose(d) <= c.closeRuns + MayClose(c)
    && d.freeRuns + MayFree(d) == c.freeRuns + MayFree(c)
    && MayClose(d) <= MayClose(c) && MayFree(d) <= MayFree(c)
    && d.unlinks + B(d.linked) == c.unlinks + B(c.linked)
    && d.frees + B(d.live) == c.frees + B(c.live)
    && (d.live ==> c.live) && (c.linked == c.live ==> d.linked == d.live)
    && (d.st == Open ==> c.st == Open) && (c.st == Closed ==> d.st == Closed)
  }

  /** And nothing frees a channel that is being deleted, but the deletion itself; nor one that
      waits for the peer to close it; and nothing but a deletion cuts it off. */
  predicate Goes(c: Chan, d: Chan) {
    && Counts(c, d) && (Done(c) ==> Done(d))
    && (c.st == Closing ==> d.st == Closing && d.live == c.live)
    && (c.isFreeing && c.live ==> d.live && d.isFreed == c.isFreed && d.freeRuns == c.freeRuns)
    && (d.cut && !c.cut ==> d.isFreeing && !c.isFreeing)
  }

  /** And once it is not open, its callbacks are left as they are. */
  predicate Moves(c: Chan, d: Chan) {
    Goes(c, d) && (c.st != Open ==> d.gotData == c.gotData && (c.cut ==> d.cut))
  }

  predicate AllMove(w: Conn, v: Conn) {
    && |v.chans| == |w.chans| && (v.open ==> w.open) && (w.stale ==> v.stale)
    && forall k | 0 <= k < |w.chans| :: Moves(w.chans[k], v.chans[k])
  }

  /** Channel `k` is at the mercy of the one who deletes it. */
  predicate AllMoveBut(w: Conn, v: Conn, k: nat) {
    && |v.chans| == |w.chans| && (v.open ==> w.open) && (w.stale ==> v.stale)
    && forall j | 0 <= j < |w.chans| :: if j == k then Counts(w.chans[j], v.chans[j]) else Moves(w.chans[j], v.chans[j])
  }

  lemma AllMoveTrans(u: Conn, v: Conn, w: Conn)
    requires AllMove(u, v) && AllMove(v, w)
    ensures AllMove(u, w)
  {
    forall k | 0 <= k < |u.chans| ensures Moves(u.chans[k], w.chans[k]) {
      assert Moves(u.chans[k], v.chans[k]) && Moves(v.chans[k], w.chans[k]);
    }
  }

  lemma AllMoveButTrans(u: Conn, v: Conn, w: Conn, k: nat)
    requires AllMoveBut(u, v, k) && AllMoveBut(v, w, k)
    ensures AllMoveBut(u, w, k)
  {
    forall j | 0 <= j < |u.chans|
      ensures if j == k then Counts(u.chans[j], w.chans[j]) else Moves(u.chans[j], w.chans[j])
    {
      assert Counts(u.chans[j], v.chans[j]) && Counts(v.chans[j], w.chans[j]);
    }
  }

  function Todo(w: Conn): (n: nat) { Sum(w.chans) }

  lemma MovesTodo(w: Conn, v: Conn, k: nat)
    requires AllMoveBut(w, v, k)
    ensures Todo(v) <= Todo(w)
  {
    forall j | 0 <= j < |w.chans| ensures Left(v.chans[j]) <= Left(w.chans[j]) {
      assert Counts(w.chans[j], v.chans[j]);
    }
    SumMono(w.chans, v.chans);
  }

  function Put(w: Conn, k: nat, c: Chan): (v: Conn)
    requires k < |w.chans|
  {
    w.(chans := w.chans[k := c])
  }

  lemma AllMoveGoes(u: Conn, v: Conn, w: Conn, k: nat)
    requires k < |u.chans| && AllMoveBut(u, v, k) && AllMove(v, w) && Goes(u.chans[k], v.chans[k])
    ensures AllMoveBut(u, w, k) && Goes(u.chans[k], w.chans[k])
  {
    AllMoveButTrans(u, v, w, k);
    assert Moves(v.chans[k], w.chans[k]);
  }

  /** A channel moves on, and a callback's chance may be used up. */
  lemma PutMoves(w: Conn, k: nat, c: Chan)
    requires k < |w.chans| && Counts(w.chans[k], c)
    ensures AllMoveBut(w, Put(w, k, c), k)
    ensures Moves(w.chans[k], c) ==> AllMove(w, Put(w, k, c))
    ensures Todo(Put(w, k, c)) <= Todo(w)
    ensures Left(c) < Left(w.chans[k]) ==> Todo(Put(w, k, c)) < Todo(w)
  {
    var ds := w.chans[k := c];
    if Left(c) < Left(w.chans[k]) { assert Left(ds[k]) < Left(w.chans[k]); }
    SumMono(w.chans, ds);
  }

  predicate Has(w: Conn, k: nat) { k < |w.chans| && w.chans[k].live }

  // ---------------------------------------------------------------------- operations

  /** Reading or writing a field of a channel that may be gone. */
  function Touch(w: Conn, k: nat): (v: Conn)
    requires k < |w.chans|
  {
    w.(stale := w.stale || !w.chans[k].live)
  }

  function Release(c: Chan): (d: Chan) {
    c.(linked := false, live := false, unlinks := c.unlinks + B(c.linked), frees := c.frees + B(c.live))
  }

  /** The next channel on the list, from `i` on. */
  function NextLinked(cs: seq<Chan>, i: nat): (k: nat)
    requires i <= |cs|
    ensures i <= k <= |cs| && (k < |cs| ==> cs[k].linked) && forall j | i <= j < k :: !cs[j].linked
    decreases |cs| - i
  {
    if i == |cs| || cs[i].linked then i else NextLinked(cs, i + 1)
  }

  /** ngcs_conn_close. */
  function CloseConn(w: Conn, cbs: seq<Callbacks>): (v: Conn)
    requires |w.chans| <= |cbs|
    ensures AllMove(w, v) && !v.open
    decreases Todo(w), B(w.open), 1, 0
  {
    if !w.open then w else WalkFrom(w.(open := false), NextLinked(w.chans, 0), cbs)
  }

  /** Its walk over the channels from `i` on.  The next one is fetched before this one is
      closed, and looked at after. */
  function WalkFrom(w: Conn, i: nat, cbs: seq<Callbacks>): (v: Conn)
    requires |w.chans| <= |cbs| && i <= |w.chans| && !w.open
    ensures AllMove(w, v)
    decreases Todo(w), B(w.open), 8, |w.chans| - i
  {
    if i == |w.chans| || !w.chans[i].live then w
    else
      var next := NextLinked(w.chans, i + 1);
      var w1 := Close(w, i, false, cbs);
      MovesTodo(w, w1, |w.chans|);
      if next == |w.chans| then w1
      else
        var w2 := Touch(w1, next);
        AllMoveTrans(w, w1, w2);
        var v := WalkFrom(w2, next, cbs);
        AllMoveTrans(w, w2, v);
        v
  }

  /** ngcs_chan_close. */
  function Close(w: Conn, k: nat, fails: bool, cbs: seq<Callbacks>): (v: Conn)
    requires |w.chans| <= |cbs| && Has(w, k)
    ensures AllMove(w, v) && v.chans[k].st != Open
    decreases Todo(w), B(w.open), 2, 1
  {
    if w.chans[k].st != Open then w
    else if w.open then SendClose(w, k, fails, cbs)
    else CloseAtOnce(w, k, cbs)
  }

  lemma LeavesOpen(c: Chan)
    requires c.st == Open
    ensures Moves(c, c.(st := Closing)) && (!c.onClose ==> Moves(c, c.(st := Closed)))
    ensures c.onClose ==> Moves(c, c.(st := Closed, closeRuns := c.closeRuns + 1))
  {
  }

  /** With the connection open, a close message is sent. */
  function SendClose(w: Conn, k: nat, fails: bool, cbs: seq<Callbacks>): (v: Conn)
    requires |w.chans| <= |cbs| && Has(w, k) && w.chans[k].st == Open
    ensures AllMove(w, v) && v.chans[k].st != Open
    decreases Todo(w), B(w.open), 2, 0
  {
    var w1 := Put(w, k, w.chans[k].(st := Closing));
    LeavesOpen(w.chans[k]);
    PutMoves(w, k, w1.chans[k]);
    if !fails then w1
    else
      var v := CloseConn(w1, cbs);
      AllMoveTrans(w, w1, v);
      assert Moves(w1.chans[k], v.chans[k]);
      v
  }

  /** Without it, the channel is closed and its callback called. */
  function CloseAtOnce(w: Conn, k: nat, cbs: seq<Callbacks>): (v: Conn)
    requires |w.chans| <= |cbs| && Has(w, k) && w.chans[k].st == Open
    ensures AllMove(w, v) && v.chans[k].st != Open
    decreases Todo(w), B(w.open), 2, 0
  {
    LeavesOpen(w.chans[k]);
    if !w.chans[k].onClose then
      PutMoves(w, k, w.chans[k].(st := Closed));
      Put(w, k, w.chans[k].(st := Closed))
    else
      var w1 := Called(w, k);
      var v := Exec(w1, cbs[k].onClose, cbs);
      AllMoveTrans(w, w1, v);
      assert Moves(w1.chans[k], v.chans[k]);
      v
  }

  /** The channel is closed, and its close callback is about to run. */
  function Called(w: Conn, k: nat): (v: Conn)
    requires k < |w.chans| && w.chans[k].st != Closed && w.chans[k].onClose
    requires w.chans[k].st == Open || !w.chans[k].isFreed
    ensures AllMoveBut(w, v, k) && v.chans[k].st == Closed && (w.chans[k].st == Open ==> AllMove(w, v))
    ensures Done(w.chans[k]) ==> Done(v.chans[k])
    ensures Todo(v) < Todo(w) && v.open == w.open && UpTo(w, v, k)
  {
    var d := w.chans[k].(st := Closed, closeRuns := w.chans[k].closeRuns + 1);
    PutMoves(w, k, d);
    Put(w, k, d)
  }

  /** No channel after `k` has changed, and no freed memory was touched. */
  predicate UpTo(w: Conn, v: Conn, k: nat) {
    |v.chans| == |w.chans| && v.open == w.open && v.stale == w.stale &&
    forall j | k < j < |w.chans| :: v.chans[j] == w.chans[j]
  }

  /** A callback at work.  It uses only channels that are still there. */
  function Exec(w: Conn, ops: seq<Op>, cbs: seq<Callbacks>): (v: Conn)
    requires |w.chans| <= |cbs|
    ensures AllMove(w, v)
    decreases Todo(w), B(w.open), 7, |ops|
  {
    if ops == [] then w
    else
      var w1 := ExecOp(w, ops[0], cbs);
      MovesTodo(w, w1, |w.chans|);
      var v := Exec(w1, ops[1..], cbs);
      AllMoveTrans(w, w1, v);
      v
  }

  function ExecOp(w: Conn, op: Op, cbs: seq<Callbacks>): (v: Conn)
    requires |w.chans| <= |cbs|
    ensures AllMove(w, v)
    decreases Todo(w), B(w.open), 6, 0
  {
    match op
    case CloseIt(k, fails) => if Has(w, k) then Close(w, k, fails, cbs) else w
    case DeleteIt(k, fails) => if Has(w, k) then Delete(w, k, fails, cbs) else w
    case Break => CloseConn(w, cbs)
  }

  /** ngcs_chan_close_now. */
  function CloseNow(w: Conn, k: nat, fails: bool, cbs: seq<Callbacks>): (v: Conn)
    requires |w.chans| <= |cbs| && Has(w, k)
    ensures AllMove(w, v) && v.chans[k].st != Open
    ensures w.chans[k].st == Open ==> !v.chans[k].gotData && !v.chans[k].onClose
    decreases Todo(w), B(w.open), 3, 1
  {
    if w.chans[k].st != Open then w
    else
      var w1 := Close(w, k, fails, cbs);
      MovesTodo(w, w1, |w.chans|);
      var v := Hurry(Touch(w1, k), k, cbs);
      AllMoveButTrans(w, w1, v, k);
      assert Moves(w.chans[k], w1.chans[k]);
      assert Moves(w.chans[k], v.chans[k]);
      v
  }

  /** Its second half: the callbacks are taken away, and the close callback is called if it
      has not been. */
  function Hurry(w: Conn, k: nat, cbs: seq<Callbacks>): (v: Conn)
    requires |w.chans| <= |cbs| && k < |w.chans| && w.chans[k].st != Open
    ensures AllMoveBut(w, v, k) && Goes(w.chans[k], v.chans[k])
    ensures v.chans[k].st != Open && !v.chans[k].gotData && !v.chans[k].onClose
    decreases Todo(w), B(w.open), 3, 0
  {
    var c := w.chans[k];
    if !(c.st == Closing && c.onClose) then Silenced(w, k)
    else
      var w1 := CalledEarly(w, k);
      var v := Exec(w1, cbs[k].onClose, cbs);
      AllMoveGoes(w, w1, v, k);
      assert Moves(w1.chans[k], v.chans[k]);
      v
  }

  lemma SilencedGoes(c: Chan)
    requires c.st != Open && !(c.st == Closing && c.onClose)
    ensures Goes(c, c.(gotData := false, onClose := false))
  {
  }

  function Silenced(w: Conn, k: nat): (v: Conn)
    requires k < |w.chans| && w.chans[k].st != Open && !(w.chans[k].st == Closing && w.chans[k].onClose)
    ensures AllMoveBut(w, v, k) && Goes(w.chans[k], v.chans[k]) && v.open == w.open && UpTo(w, v, k)
    ensures v.chans[k].st != Open && !v.chans[k].gotData && !v.chans[k].onClose
  {
    var d := w.chans[k].(gotData := false, onClose := false);
    SilencedGoes(w.chans[k]);
    PutMoves(w, k, d);
    Put(w, k, d)
  }

  /** The close callback is about to run, before the peer has answered. */
  function CalledEarly(w: Conn, k: nat): (v: Conn)
    requires k < |w.chans| && w.chans[k].st == Closing && w.chans[k].onClose
    ensures AllMoveBut(w, v, k) && Goes(w.chans[k], v.chans[k])
    ensures v.chans[k].st == Closing && !v.chans[k].gotData && !v.chans[k].onClose
    ensures Todo(v) < Todo(w) && v.open == w.open && UpTo(w, v, k)
  {
    var d := w.chans[k].(gotData := false, onClose := false, closeRuns := w.chans[k].closeRuns + 1, cut := false);
    PutMoves(w, k, d);
    Put(w, k, d)
  }

  /** ngcs_chan_del. */
  function Delete(w: Conn, k: nat, fails: bool, cbs: seq<Callbacks>): (v: Conn)
    requires |w.chans| <= |cbs| && Has(w, k)
    ensures AllMove(w, v) && v.chans[k].isFreeing
    decreases Todo(w), B(w.open), 5, 0
  {
    if w.chans[k].isFreeing then w
    else
      var w1 := MarkFreeing(w, k);
      var w2 := if w1.chans[k].isFreed then w1 else Dismantle(w1, k, fails, cbs);
      var v := FreeIfClosed(w2, k);
      AllMoveButTrans(w1, w2, v, k);
      AllMoveButTrans(w, w1, v, k);
      DeletedMoves(w.chans[k], w2.chans[k], v.chans[k]);
      v
  }

  /** A deletion as a whole, from the channel before it to the one that `b` left. */
  lemma DeletedMoves(a: Chan, b: Chan, d: Chan)
    requires Counts(a, d) && !a.isFreeing && b.isFreeing && (Done(a) ==> b.isFreed && b.st != Open)
    requires a.st == Closing ==> b.st == Closing && b.live == a.live
    requires a.st != Open ==> b.gotData == a.gotData && (a.cut ==> b.cut)
    requires d == if b.st == Closed then Release(b) else b
    ensures Moves(a, d) && d.isFreeing
  {
  }

  function MarkFreeing(w: Conn, k: nat): (v: Conn)
    requires k < |w.chans| && !w.chans[k].isFreeing
    ensures AllMoveBut(w, v, k) && UpTo(w, v, k) && Todo(v) <= Todo(w)
    ensures v.chans[k] == w.chans[k].(isFreeing := true)
  {
    PutMoves(w, k, w.chans[k].(isFreeing := true));
    Put(w, k, w.chans[k].(isFreeing := true))
  }

  /** The end of ngcs_chan_del. */
  function FreeIfClosed(w: Conn, k: nat): (v: Conn)
    requires k < |w.chans|
    ensures AllMoveBut(w, v, k)
    ensures v.chans[k] == if w.chans[k].st == Closed then Release(w.chans[k]) else w.chans[k]
  {
    var w1 := Touch(w, k);
    if w1.chans[k].st == Closed then Put(w1, k, Release(w1.chans[k])) else w1
  }

  /** The part of ngcs_chan_del that closes the channel and runs its free callback. */
  function Dismantle(w: Conn, k: nat, fails: bool, cbs: seq<Callbacks>): (v: Conn)
    requires |w.chans| <= |cbs| && Has(w, k) && w.chans[k].isFreeing && !w.chans[k].isFreed
    ensures Has(v, k) && AllMoveBut(w, v, k)
    ensures v.chans[k].isFreed && v.chans[k].st != Open && (w.chans[k].st == Closing ==> v.chans[k].st == Closing)
    ensures w.chans[k].st != Open ==> v.chans[k].gotData == w.chans[k].gotData && (w.chans[k].cut ==> v.chans[k].cut)
    decreases Todo(w), B(w.open), 4, 0
  {
    var w1 := CloseNow(w, k, fails, cbs);
    MovesTodo(w, w1, |w.chans|);
    assert Moves(w.chans[k], w1.chans[k]);
    var w2 := MarkFreed(w1, k);
    AllMoveButTrans(w, w1, w2, k);
    var v := Exec(w2, cbs[k].onFree, cbs);
    assert Moves(w2.chans[k], v.chans[k]);
    AllMoveButTrans(w, w2, v, k);
    v
  }

  function Freed(c: Chan): (d: Chan) {
    c.(isFreed := true, freeRuns := c.freeRuns + 1, cut := c.cut || (c.st == Closing && c.onClose))
  }

  /** The free callback is about to run. */
  function MarkFreed(w: Conn, k: nat): (v: Conn)
    requires k < |w.chans| && !w.chans[k].isFreed && w.chans[k].st != Open
    ensures AllMoveBut(w, v, k)
    ensures v.chans[k] == Freed(w.chans[k])
    ensures Todo(v) < Todo(w) && v.open == w.open
  {
    PutMoves(w, k, Freed(w.chans[k]));
    Put(Touch(w, k), k, Freed(w.chans[k]))
  }

  lemma ClosedCounts(c: Chan)
    requires c.st != Closed
    ensures c.isFreed ==> Counts(c, Release(c.(st := Closed))) && Done(Release(c.(st := Closed)))
    ensures !c.isFreed && !c.onClose ==> Counts(c, c.(st := Closed)) && (Done(c) ==> Done(c.(st := Closed)))
  {
  }

  /** ngcs_chan_closed: the peer closed it.  Only a linked channel that is not closed yet
      is ever found for such a message. */
  function PeerClosed(w: Conn, k: nat, cbs: seq<Callbacks>): (v: Conn)
    requires |w.chans| <= |cbs| && Has(w, k) && w.chans[k].st != Closed
    ensures AllMoveBut(w, v, k) && v.chans[k].st == Closed && (Done(w.chans[k]) ==> Done(v.chans[k]))
  {
    var c := w.chans[k].(st := Closed);
    ClosedCounts(w.chans[k]);
    if c.isFreed then
      PutMoves(w, k, Release(c));
      Put(w, k, Release(c))
    else if !c.onClose then
      PutMoves(w, k, c);
      Put(w, k, c)
    else
      PeerRuns(w, k, cbs);
      Exec(Called(w, k), cbs[k].onClose, cbs)
  }

  lemma PeerRuns(w: Conn, k: nat, cbs: seq<Callbacks>)
    requires |w.chans| <= |cbs| && k < |w.chans| && w.chans[k].st != Closed && w.chans[k].onClose && !w.chans[k].isFreed
    ensures var v := Exec(Called(w, k), cbs[k].onClose, cbs);
            AllMoveBut(w, v, k) && v.chans[k].st == Closed && (Done(w.chans[k]) ==> Done(v.chans[k]))
  {
    var w1 := Called(w, k);
    var v := Exec(w1, cbs[k].onClose, cbs);
    AllMoveButTrans(w, w1, v, k);
    assert Moves(w1.chans[k], v.chans[k]);
  }

  // --------------------------------------------------------------------- every history

  /** What can happen from outside: a channel is registered; its owner closes or deletes it;
      the peer sends it data, which its callback acts on, or a close; the connection breaks;
      or it is freed with all that is left of it. */
  datatype Event =
    | Registered(hasOnClose: bool)
    | OwnerCloses(k: nat, fails: bool)
    | OwnerDeletes(k: nat, fails: bool)
    | PeerSends(k: nat, ops: seq<Op>)
    | PeerCloses(k: nat)
    | ConnBreaks
    | ConnFreed

  function Happen(w: Conn, e: Event, cbs: seq<Callbacks>): (v: Conn)
    requires |w.chans| <= |cbs|
    ensures |v.chans| <= |cbs|
  {
    match e
    case Registered(hasOnClose) => if |w.chans| < |cbs| then w.(chans := w.chans + [NewChan(hasOnClose)]) else w
    case OwnerCloses(k, fails) => if Has(w, k) then Close(w, k, fails, cbs) else w
    case OwnerDeletes(k, fails) => if Has(w, k) then Delete(w, k, fails, cbs) else w
    case PeerSends(k, ops) => if Has(w, k) && w.chans[k].st != Closed && w.chans[k].gotData then Exec(w, ops, cbs) else w
    case PeerCloses(k) => if Has(w, k) && w.chans[k].st != Closed then PeerClosed(w, k, cbs) else w
    case ConnBreaks => CloseConn(w, cbs)
    case ConnFreed => FreeAll(CloseConn(w, cbs))
  }

  function FreeAll(w: Conn): (v: Conn)
    ensures |v.chans| == |w.chans|
  {
    w.(chans := seq(|w.chans|, i requires 0 <= i < |w.chans| => if w.chans[i].linked then Release(w.chans[i]) else w.chans[i]))
  }

  function History(w: Conn, es: seq<Event>, cbs: seq<Callbacks>): (v: Conn)
    requires |w.chans| <= |cbs|
    decreases |es|
  {
    if es == [] then w else History(Happen(w, es[0], cbs), es[1..], cbs)
  }

  /** Every callback and every release, from what may still run. */
  predicate FineChan(c: Chan) {
    && c.linked == c.live && Once(c) && Done(c)
    && c.closeRuns + MayClose(c) <= 1 && c.freeRuns + MayFree(c) == 1
    && c.unlinks + B(c.linked) == 1 && c.frees + B(c.live) == 1
  }

  predicate Fine(w: Conn) { forall k | 0 <= k < |w.chans| :: FineChan(w.chans[k]) }

  lemma MovesFine(w: Conn, v: Conn, k: nat)
    requires AllMoveBut(w, v, k) && Fine(w)
    requires k < |w.chans| && Done(w.chans[k]) ==> Done(v.chans[k])
    ensures Fine(v)
  {
    forall j | 0 <= j < |v.chans| ensures FineChan(v.chans[j]) {
      assert FineChan(w.chans[j]) && Counts(w.chans[j], v.chans[j]);
    }
  }

  lemma FreeAllFine(w: Conn)
    requires Fine(w)
    ensures Fine(FreeAll(w))
  {
    forall j | 0 <= j < |w.chans| ensures FineChan(FreeAll(w).chans[j]) { assert FineChan(w.chans[j]); }
  }

  lemma HappenFine(w: Conn, e: Event, cbs: seq<Callbacks>)
    requires |w.chans| <= |cbs| && Fine(w)
    ensures Fine(Happen(w, e, cbs))
  {
    match e
    case Registered(_) =>
    case PeerCloses(k) => if Has(w, k) && w.chans[k].st != Closed { MovesFine(w, PeerClosed(w, k, cbs), k); }
    case ConnFreed =>
      MovesFine(w, CloseConn(w, cbs), |w.chans|);
      FreeAllFine(CloseConn(w, cbs));
    case OwnerCloses(k, fails) => if Has(w, k) { MovesFine(w, Close(w, k, fails, cbs), |w.chans|); }
    case OwnerDeletes(k, fails) => if Has(w, k) { MovesFine(w, Delete(w, k, fails, cbs), |w.chans|); }
    case PeerSends(_, ops) => MovesFine(w, Exec(w, ops, cbs), |w.chans|);
    case ConnBreaks => MovesFine(w, CloseConn(w, cbs), |w.chans|);
  }

  /** What a history owes to each channel, in numbers. */
  predicate Served(c: Chan) {
    && c.closeRuns <= 1 && (!c.had ==> c.closeRuns == 0)
    && (c.had && c.st == Closed ==> (c.closeRuns == 1 <==> !c.cut))
    && c.freeRuns == (if c.isFreed then 1 else 0) && (c.isFreeing ==> c.freeRuns == 1)
    && c.unlinks <= 1 && c.frees == c.unlinks
    && (c.isFreeing && c.st == Closed ==> c.unlinks == 1 && c.frees == 1)
  }

  /** For every history, whatever the callbacks do to any channels and whichever sends fail:
      a channel that was registered with a close callback and is closed has run it exactly
      once, if and only if it was not cut off by a deletion; its free callback has run exactly
      once if it is deleted, and else not at all; and it is unlinked and freed together, at
      most once, and exactly once if it is deleted and closed. */
  lemma {:induction false} EveryHistoryIsFine(w: Conn, es: seq<Event>, cbs: seq<Callbacks>)
    requires |w.chans| <= |cbs| && Fine(w)
    ensures Fine(History(w, es, cbs))
    ensures forall c <- History(w, es, cbs).chans :: Served(c)
    decreases |es|
  {
    if es == [] {
      forall c <- w.chans ensures Served(c) { assert FineChan(c); }
    } else {
      HappenFine(w, es[0], cbs);
      EveryHistoryIsFine(Happen(w, es[0], cbs), es[1..], cbs);
    }
  }

  // ------------------------------------------------------------------------- in place

  /** ngcs_conn and its channels. */
  class Connection {
    var open: bool
    var chans: seq<Chan>
    ghost var stale: bool

    constructor ()
      ensures View() == Conn(true, [], false)
    {
      open, chans, stale := true, [], false;
    }

    ghost function View(): (w: Conn)
      reads this
    {
      Conn(open, chans, stale)
    }

    /** ngcs_chan_reg. */
    method Register(hasOnClose: bool) returns (k: nat)
      modifies this
      ensures k == |old(chans)| && View() == old(View()).(chans := old(chans) + [NewChan(hasOnClose)])
    {
      k := |chans|;
      chans := chans + [NewChan(hasOnClose)];
    }

    /** Every use of a channel after a callback had the chance to free it. */
    ghost method Use(k: nat)
      requires k < |chans|
      modifies this`stale
      ensures View() == Touch(old(View()), k)
    {
      stale := stale || !chans[k].live;
    }

    method NextOnList(i: nat) returns (k: nat)
      requires i <= |chans|
      ensures k == NextLinked(chans, i)
    {
      k := i;
      while k < |chans| && !chans[k].linked
        invariant i <= k <= |chans| && NextLinked(chans, k) == NextLinked(chans, i)
      {
        k := k + 1;
      }
    }

    method ConnClose(cbs: seq<Callbacks>)
      requires |chans| <= |cbs|
      modifies this
      ensures View() == CloseConn(old(View()), cbs)
      decreases Todo(View()), B(open), 1, 0
    {
      if !open { return; }
      open := false;
      var i := NextOnList(0);
      ghost var w, start := View(), i;
      while i < |chans| && chans[i].live
        invariant |chans| == |w.chans| && i <= |chans| && !open && Todo(View()) <= Todo(w)
        invariant WalkFrom(View(), i, cbs) == WalkFrom(w, start, cbs)
        decreases |chans| - i
      {
        var next := NextOnList(i + 1);
        MovesTodo(View(), Close(View(), i, false, cbs), |chans|);
        ChanClose(i, false, cbs);
        if next < |chans| { Use(next); }
        i := next;
      }
    }

    method ChanClose(k: nat, fails: bool, cbs: seq<Callbacks>)
      requires |chans| <= |cbs| && Has(View(), k)
      modifies this
      ensures View() == Close(old(View()), k, fails, cbs)
      decreases Todo(View()), B(open), 2, 1
    {
      if chans[k].st != Open { return; }
      ghost var w := View();
      if open {
        PutMoves(w, k, chans[k].(st := Closing));
        chans := chans[k := chans[k].(st := Closing)];
        if fails { ConnClose(cbs); }
      } else if !chans[k].onClose {
        chans := chans[k := chans[k].(st := Closed)];
      } else {
        chans := chans[k := chans[k].(st := Closed, closeRuns := chans[k].closeRuns + 1)];
        assert View() == Called(w, k);
        Callback(cbs[k].onClose, cbs);
      }
    }

    /** A callback: it acts on channels that are still there. */
    method Callback(ops: seq<Op>, cbs: seq<Callbacks>)
      requires |chans| <= |cbs|
      modifies this
      ensures View() == Exec(old(View()), ops, cbs)
      decreases Todo(View()), B(open), 7, |ops|
    {
      if ops == [] { return; }
      ghost var w := View();
      MovesTodo(w, ExecOp(w, ops[0], cbs), |chans|);
      match ops[0] {
        case CloseIt(k, fails) => if k < |chans| && chans[k].live { ChanClose(k, fails, cbs); }
        case DeleteIt(k, fails) => if k < |chans| && chans[k].live { ChanDel(k, fails, cbs); }
        case Break => ConnClose(cbs);
      }
      Callback(ops[1..], cbs);
    }

    method ChanCloseNow(k: nat, fails: bool, cbs: seq<Callbacks>)
      requires |chans| <= |cbs| && Has(View(), k)
      modifies this
      ensures View() == CloseNow(old(View()), k, fails, cbs)
      decreases Todo(View()), B(open), 3, 1
    {
      if chans[k].st != Open { return; }
      MovesTodo(View(), Close(View(), k, fails, cbs), |chans|);
      ChanClose(k, fails, cbs);
      Use(k);
      TakeCallbacks(k, cbs);
    }

    method TakeCallbacks(k: nat, cbs: seq<Callbacks>)
      requires |chans| <= |cbs| && k < |chans| && chans[k].st != Open
      modifies this
      ensures View() == Hurry(old(View()), k, cbs)
      decreases Todo(View()), B(open), 3, 0
    {
      ghost var w := View();
      var c := chans[k];
      if c.st == Closing && c.onClose {
        chans := chans[k := c.(gotData := false, onClose := false, closeRuns := c.closeRuns + 1, cut := false)];
        assert View() == CalledEarly(w, k);
        Callback(cbs[k].onClose, cbs);
      } else {
        chans := chans[k := c.(gotData := false, onClose := false)];
      }
    }

    method ChanDel(k: nat, fails: bool, cbs: seq<Callbacks>)
      requires |chans| <= |cbs| && Has(View(), k)
      modifies this
      ensures View() == Delete(old(View()), k, fails, cbs)
      decreases Todo(View()), B(open), 5, 0
    {
      if chans[k].isFreeing { return; }
      ghost var w := View();
      chans := chans[k := chans[k].(isFreeing := true)];
      assert View() == MarkFreeing(w, k);
      if !chans[k].isFreed { TakeApart(k, fails, cbs); }
      EndDel(k);
    }

    method EndDel(k: nat)
      requires k < |chans|
      modifies this
      ensures View() == FreeIfClosed(old(View()), k)
    {
      Use(k);
      if chans[k].st == Closed { chans := chans[k := Release(chans[k])]; }
    }

    method TakeApart(k: nat, fails: bool, cbs: seq<Callbacks>)
      requires |chans| <= |cbs| && Has(View(), k) && chans[k].isFreeing && !chans[k].isFreed
      modifies this
      ensures View() == Dismantle(old(View()), k, fails, cbs)
      decreases Todo(View()), B(open), 4, 0
    {
      ghost var w := View();
      MovesTodo(w, CloseNow(w, k, fails, cbs), |chans|);
      ChanCloseNow(k, fails, cbs);
      ghost var w1 := View();
      assert Moves(w.chans[k], w1.chans[k]);
      Use(k);
      chans := chans[k := Freed(chans[k])];
      assert View() == MarkFreed(w1, k);
      Callback(cbs[k].onFree, cbs);
    }

    method ChanClosed(k: nat, cbs: seq<Callbacks>)
      requires |chans| <= |cbs| && Has(View(), k) && chans[k].st != Closed
      modifies this
      ensures View() == PeerClosed(old(View()), k, cbs)
    {
      ghost var w := View();
      if chans[k].isFreed {
        chans := chans[k := Release(chans[k].(st := Closed))];
      } else if chans[k].onClose {
        chans := chans[k := chans[k].(st := Closed, closeRuns := chans[k].closeRuns + 1)];
        assert View() == Called(w, k);
        Callback(cbs[k].onClose, cbs);
      } else {
        chans := chans[k := chans[k].(st := Closed)];
      }
    }
  }
}
