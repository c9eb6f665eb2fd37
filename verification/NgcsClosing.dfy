/**
  What closing, deleting and breaking do for a channel, call by call: the close handshake,
  the one way in which a close callback is lost, and the walk that leaves nothing open.
 */
module NgcsClosing {

  import opened NgcsChannel
  import opened NgcsFreedMemory

  // ------------------------------------------------------------------- the handshake

  /** A channel that is not open is left alone.  With a connection, an open one waits for the
      peer from then on, and if the send works nothing else happens; without, it is closed. */
  lemma ClosesRight(w: Conn, k: nat, fails: bool, cbs: seq<Callbacks>)
    requires |w.chans| <= |cbs| && Has(w, k)
    ensures w.chans[k].st != Open ==> Close(w, k, fails, cbs) == w
    ensures w.chans[k].st == Open && w.open ==> Close(w, k, fails, cbs).chans[k].st == Closing
    ensures w.chans[k].st == Open && w.open && !fails ==>
              Close(w, k, fails, cbs) == w.(chans := w.chans[k := w.chans[k].(st := Closing)])
    ensures w.chans[k].st == Open && w.open && fails ==> !Close(w, k, fails, cbs).open
    ensures w.chans[k].st == Open && !w.open ==> Close(w, k, fails, cbs).chans[k].st == Closed
  {
    if w.chans[k].st == Open {
      if w.open {
        var w1 := Put(w, k, w.chans[k].(st := Closing));
        if fails { assert Moves(w1.chans[k], CloseConn(w1, cbs).chans[k]); }
      } else {
        CloseCloses(w, k, fails, cbs);
      }
    }
  }

  // --------------------------------------------------- deleting, and what it cuts off

  /** While a channel is being deleted and taken apart. */
  lemma DismantleCuts(w: Conn, k: nat, fails: bool, cbs: seq<Callbacks>)
    requires |w.chans| <= |cbs| && Has(w, k) && w.chans[k].isFreeing && !w.chans[k].isFreed && !w.chans[k].cut
    ensures var c, d := w.chans[k], Dismantle(w, k, fails, cbs).chans[k];
            && (d.cut <==> c.st == Closing && c.onClose)
            && (d.gotData <==> c.st != Open && c.gotData)
  {
    var w1 := CloseNow(w, k, fails, cbs);
    assert Moves(w.chans[k], w1.chans[k]);
    var w2 := MarkFreed(w1, k);
    var v := Exec(w2, cbs[k].onFree, cbs);
    assert Moves(w2.chans[k], v.chans[k]);
  }

  /** Deleting a channel for the first time runs its free callback.  It loses the close
      callback if and only if the channel was waiting for the peer with that callback still
      set; and its data callback is taken away if and only if it was open. */
  lemma DeleteCutsIff(w: Conn, k: nat, fails: bool, cbs: seq<Callbacks>)
    requires |w.chans| <= |cbs| && Has(w, k) && Once(w.chans[k]) && !w.chans[k].isFreeing && !w.chans[k].isFreed
    ensures var c, d := w.chans[k], Delete(w, k, fails, cbs).chans[k];
            && d.isFreeing && d.isFreed && d.freeRuns == c.freeRuns + 1
            && (d.cut <==> c.st == Closing && c.onClose)
            && (d.gotData <==> c.st != Open && c.gotData)
            && (d.live <==> d.st == Closing) && d.st != Open
  {
    var w1 := MarkFreeing(w, k);
    DismantleCuts(w1, k, fails, cbs);
    var w2 := Dismantle(w1, k, fails, cbs);
    assert Counts(w1.chans[k], w2.chans[k]);
    assert Delete(w, k, fails, cbs) == FreeIfClosed(w2, k);
  }

  lemma CutThenClosed(w: Conn, k: nat, cbs: seq<Callbacks>)
    requires |w.chans| <= |cbs| && Has(w, k) && Once(w.chans[k]) && w.chans[k].cut && w.chans[k].st == Closing
    ensures |Happen(w, PeerCloses(k), cbs).chans| == |w.chans|
    ensures var c, d := w.chans[k], Happen(w, PeerCloses(k), cbs).chans[k];
            d.had && d.st == Closed && d.closeRuns == 0 && d.frees == c.frees + 1
  {
    assert Happen(w, PeerCloses(k), cbs) == Put(w, k, Release(w.chans[k].(st := Closed)));
  }

  /** Deleted while it waits for the peer, and then closed by the peer: the channel is gone,
      and its close callback has not run. */
  lemma DeletedThenClosed(w: Conn, k: nat, fails: bool, cbs: seq<Callbacks>)
    requires |w.chans| <= |cbs| && Has(w, k) && Once(w.chans[k]) && !w.chans[k].isFreed && !w.chans[k].isFreeing
    requires w.chans[k].st == Closing && w.chans[k].onClose
    ensures var v := Happen(Happen(w, OwnerDeletes(k, fails), cbs), PeerCloses(k), cbs);
            |v.chans| == |w.chans| && v.chans[k].had && v.chans[k].st == Closed && v.chans[k].closeRuns == 0 &&
            v.chans[k].frees == w.chans[k].frees + 1
  {
    CutByDeletion(w, k, fails, cbs);
    CutThenClosed(Happen(w, OwnerDeletes(k, fails), cbs), k, cbs);
  }

  lemma CutByDeletion(w: Conn, k: nat, fails: bool, cbs: seq<Callbacks>)
    requires |w.chans| <= |cbs| && Has(w, k) && Once(w.chans[k]) && !w.chans[k].isFreed && !w.chans[k].isFreeing
    requires w.chans[k].st == Closing && w.chans[k].onClose
    ensures var v := Happen(w, OwnerDeletes(k, fails), cbs);
            && |v.chans| == |w.chans| && Has(v, k) && Once(v.chans[k]) && v.chans[k].cut
            && v.chans[k].st == Closing && v.chans[k].frees == w.chans[k].frees
  {
    DeleteCutsIff(w, k, fails, cbs);
    assert Moves(w.chans[k], Delete(w, k, fails, cbs).chans[k]);
  }

  /** As it can come about, whatever the callbacks: registered with a close callback, closed
      by its owner, deleted, closed by the peer. */
  lemma CallbackLost(cbs: seq<Callbacks>, fails: bool)
    requires cbs != []
    ensures var es := [Registered(true), OwnerCloses(0, false), OwnerDeletes(0, fails), PeerCloses(0)];
            var v := History(Conn(true, [], false), es, cbs);
            |v.chans| == 1 && v.chans[0].had && v.chans[0].st == Closed && v.chans[0].closeRuns == 0 && v.chans[0].frees == 1
  {
    FourHappen(Conn(true, [], false), Registered(true), OwnerCloses(0, false), OwnerDeletes(0, fails), PeerCloses(0), cbs);
    var w := Conn(true, [NewChan(true)], false);
    assert Happen(Conn(true, [], false), Registered(true), cbs) == w;
    ClosesRight(w, 0, false, cbs);
    DeletedThenClosed(Close(w, 0, false, cbs), 0, fails, cbs);
  }

  lemma FourHappen(w: Conn, a: Event, b: Event, c: Event, d: Event, cbs: seq<Callbacks>)
    requires |w.chans| <= |cbs|
    ensures History(w, [a, b, c, d], cbs) == Happen(Happen(Happen(Happen(w, a, cbs), b, cbs), c, cbs), d, cbs)
  {
    assert [a, b, c, d][1..] == [b, c, d] && [b, c, d][1..] == [c, d] && [c, d][1..] == [d] && [d][1..] == [];
    var w3 := Happen(Happen(Happen(w, a, cbs), b, cbs), c, cbs);
    assert History(w3, [d], cbs) == History(Happen(w3, d, cbs), [], cbs);
    assert History(Happen(Happen(w, a, cbs), b, cbs), [c, d], cbs) == History(w3, [d], cbs);
  }

  // --------------------------------------------------------------------- the walk

  /** No channel before `i` that is still there is open. */
  predicate ShutBefore(w: Conn, i: nat) {
    i <= |w.chans| && forall j | 0 <= j < i :: w.chans[j].live ==> w.chans[j].st != Open
  }

  lemma MovesShut(w: Conn, v: Conn, i: nat)
    requires AllMove(w, v) && ShutBefore(w, i)
    ensures ShutBefore(v, i)
  {
    forall j | 0 <= j < i ensures v.chans[j].live ==> v.chans[j].st != Open {
      assert Moves(w.chans[j], v.chans[j]);
    }
  }

  /** One turn of the walk shuts the channels up to the next one. */
  lemma TurnShuts(w: Conn, i: nat, cbs: seq<Callbacks>)
    requires |w.chans| <= |cbs| && i < |w.chans| && w.chans[i].live && Linked(w) && ShutBefore(w, i)
    ensures ShutBefore(Close(w, i, false, cbs), NextLinked(w.chans, i + 1))
  {
    var v := Close(w, i, false, cbs);
    MovesShut(w, v, i);
    forall j | 0 <= j < NextLinked(w.chans, i + 1) ensures v.chans[j].live ==> v.chans[j].st != Open {
      assert Moves(w.chans[j], v.chans[j]);
    }
  }

  lemma {:induction false} WalkShuts(w: Conn, i: nat, cbs: seq<Callbacks>)
    requires |w.chans| <= |cbs| && i <= |w.chans| && !w.open && Linked(w) && ShutBefore(w, i)
    requires i < |w.chans| ==> w.chans[i].live
    requires !WalkFrom(w, i, cbs).stale
    ensures ShutBefore(WalkFrom(w, i, cbs), |w.chans|)
    decreases |w.chans| - i
  {
    if i < |w.chans| {
      var next := NextLinked(w.chans, i + 1);
      var w1 := Close(w, i, false, cbs);
      TurnShuts(w, i, cbs);
      MovesLinked(w, w1, |w.chans|);
      if next < |w.chans| {
        var w2 := Touch(w1, next);
        assert WalkFrom(w, i, cbs) == WalkFrom(w2, next, cbs);
        assert w1.chans[next].live by { assert AllMove(w2, WalkFrom(w2, next, cbs)); }
        WalkShuts(w2, next, cbs);
      }
    }
  }

  /** Whatever the callbacks do: when a connection closes without touching freed memory, no
      channel that is left on it is open. */
  lemma BreakShutsAll(w: Conn, cbs: seq<Callbacks>)
    requires |w.chans| <= |cbs| && w.open && Linked(w) && !CloseConn(w, cbs).stale
    ensures ShutBefore(CloseConn(w, cbs), |w.chans|) && !CloseConn(w, cbs).open
  {
    WalkShuts(w.(open := false), NextLinked(w.chans, 0), cbs);
  }

  /** Freeing a connection frees every channel that was left on it. */
  lemma FreeingLeavesNone(w: Conn, cbs: seq<Callbacks>, k: nat)
    requires |w.chans| <= |cbs| && Linked(w) && k < |w.chans|
    ensures |Happen(w, ConnFreed, cbs).chans| == |w.chans|
    ensures var d := Happen(w, ConnFreed, cbs).chans[k];
            !d.live && !d.linked && d.frees == w.chans[k].frees + B(w.chans[k].live)
  {
    var v := CloseConn(w, cbs);
    MovesLinked(w, v, |w.chans|);
    assert Moves(w.chans[k], v.chans[k]) && v.chans[k].linked == v.chans[k].live;
  }

  // ----------------------------------------------------------------- data of the peer

  /** Data reaches a channel's callback if and only if the channel is there, is not closed and
      has one: a callback that would break the connection does so exactly then. */
  lemma DataReaches(w: Conn, k: nat, cbs: seq<Callbacks>)
    requires |w.chans| <= |cbs|
    ensures w.open ==>
              (!Happen(w, PeerSends(k, [Break]), cbs).open <==>
                 k < |w.chans| && w.chans[k].live && w.chans[k].st != Closed && w.chans[k].gotData)
  {
    ExecOne(w, Break, cbs);
  }
}
