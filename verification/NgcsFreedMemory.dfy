/**
  When the channels of a connection are used after they were freed.  The walk that closes a
  connection fetches the next channel before it closes one, and looks at it after; so
  everything turns on what the close callback in between does to later channels.
 */
module NgcsFreedMemory {

  import opened NgcsChannel

  // ------------------------------------------------- when no freed memory is touched

  /** Nothing is done to a channel that comes after `k`. */
  predicate NotAfter(ops: seq<Op>, k: nat) { forall op <- ops :: op.Break? || op.k <= k }

  /** The close and free callbacks of a channel act on no channel that comes after it. */
  predicate NoneAfter(cbs: seq<Callbacks>) {
    forall k | 0 <= k < |cbs| :: NotAfter(cbs[k].onClose, k) && NotAfter(cbs[k].onFree, k)
  }

  lemma UpToTrans(u: Conn, v: Conn, w: Conn, k: nat)
    requires UpTo(u, v, k) && UpTo(v, w, k)
    ensures UpTo(u, w, k)
  {
  }

  lemma {:induction false} CloseUpTo(w: Conn, k: nat, fails: bool, cbs: seq<Callbacks>)
    requires |w.chans| <= |cbs| && Has(w, k) && !w.open && NoneAfter(cbs)
    ensures UpTo(w, Close(w, k, fails, cbs), k)
    decreases Todo(w), B(w.open), 2, 1
  {
    if w.chans[k].st == Open && w.chans[k].onClose {
      var w1 := Called(w, k);
      ExecUpTo(w1, cbs[k].onClose, k, cbs);
      UpToTrans(w, w1, Exec(w1, cbs[k].onClose, cbs), k);
    }
  }

  lemma {:induction false} ExecUpTo(w: Conn, ops: seq<Op>, k: nat, cbs: seq<Callbacks>)
    requires |w.chans| <= |cbs| && k < |w.chans| && !w.open && NoneAfter(cbs) && NotAfter(ops, k)
    ensures UpTo(w, Exec(w, ops, cbs), k)
    decreases Todo(w), B(w.open), 7, |ops|
  {
    if ops != [] {
      var w1 := ExecOp(w, ops[0], cbs);
      MovesTodo(w, w1, |w.chans|);
      assert ops[0] in ops;
      ExecOpUpTo(w, ops[0], k, cbs);
      ExecUpTo(w1, ops[1..], k, cbs);
      UpToTrans(w, w1, Exec(w, ops, cbs), k);
    }
  }

  lemma {:induction false} ExecOpUpTo(w: Conn, op: Op, k: nat, cbs: seq<Callbacks>)
    requires |w.chans| <= |cbs| && k < |w.chans| && !w.open && NoneAfter(cbs) && (op.Break? || op.k <= k)
    ensures UpTo(w, ExecOp(w, op, cbs), k)
    decreases Todo(w), B(w.open), 6, 0
  {
    match op
    case CloseIt(j, fails) => if Has(w, j) { CloseUpTo(w, j, fails, cbs); }
    case DeleteIt(j, fails) => if Has(w, j) { DeleteUpTo(w, j, fails, cbs); }
    case Break =>
  }

  lemma {:induction false} CloseNowUpTo(w: Conn, k: nat, fails: bool, cbs: seq<Callbacks>)
    requires |w.chans| <= |cbs| && Has(w, k) && w.chans[k].isFreeing && !w.open && NoneAfter(cbs)
    ensures UpTo(w, CloseNow(w, k, fails, cbs), k)
    decreases Todo(w), B(w.open), 3, 1
  {
    if w.chans[k].st == Open {
      var w1 := Close(w, k, fails, cbs);
      CloseUpTo(w, k, fails, cbs);
      MovesTodo(w, w1, |w.chans|);
      assert Moves(w.chans[k], w1.chans[k]);
      assert Touch(w1, k) == w1;
      HurryUpTo(w1, k, cbs);
      UpToTrans(w, w1, CloseNow(w, k, fails, cbs), k);
    }
  }

  lemma {:induction false} HurryUpTo(w: Conn, k: nat, cbs: seq<Callbacks>)
    requires |w.chans| <= |cbs| && k < |w.chans| && w.chans[k].st != Open && !w.open && NoneAfter(cbs)
    ensures UpTo(w, Hurry(w, k, cbs), k)
    decreases Todo(w), B(w.open), 3, 0
  {
    var c := w.chans[k];
    if c.st == Closing && c.onClose {
      var w1 := CalledEarly(w, k);
      ExecUpTo(w1, cbs[k].onClose, k, cbs);
      UpToTrans(w, w1, Exec(w1, cbs[k].onClose, cbs), k);
    }
  }

  lemma {:induction false} DeleteUpTo(w: Conn, k: nat, fails: bool, cbs: seq<Callbacks>)
    requires |w.chans| <= |cbs| && Has(w, k) && !w.open && NoneAfter(cbs)
    ensures UpTo(w, Delete(w, k, fails, cbs), k)
    decreases Todo(w), B(w.open), 5, 0
  {
    if !w.chans[k].isFreeing {
      var w1 := MarkFreeing(w, k);
      if !w1.chans[k].isFreed { DismantleUpTo(w1, k, fails, cbs); }
    }
  }

  lemma {:induction false} DismantleUpTo(w: Conn, k: nat, fails: bool, cbs: seq<Callbacks>)
    requires |w.chans| <= |cbs| && Has(w, k) && w.chans[k].isFreeing && !w.chans[k].isFreed && !w.open && NoneAfter(cbs)
    ensures UpTo(w, Dismantle(w, k, fails, cbs), k)
    decreases Todo(w), B(w.open), 4, 0
  {
    var w1 := CloseNow(w, k, fails, cbs);
    CloseNowUpTo(w, k, fails, cbs);
    MovesTodo(w, w1, |w.chans|);
    assert Moves(w.chans[k], w1.chans[k]);
    var w2 := MarkFreed(w1, k);
    UpToTrans(w, w1, w2, k);
    ExecUpTo(w2, cbs[k].onFree, k, cbs);
    UpToTrans(w, w2, Dismantle(w, k, fails, cbs), k);
  }

  // The same for a connection that may be open: callbacks that leave later channels alone
  // never make it touch freed memory.

  predicate Linked(w: Conn) { forall k | 0 <= k < |w.chans| :: w.chans[k].linked == w.chans[k].live }

  lemma MovesLinked(w: Conn, v: Conn, k: nat)
    requires AllMoveBut(w, v, k) && Linked(w)
    ensures Linked(v)
  {
    forall j | 0 <= j < |v.chans| ensures v.chans[j].linked == v.chans[j].live {
      assert Counts(w.chans[j], v.chans[j]);
    }
  }

  lemma {:induction false} WalkKeepsFresh(w: Conn, i: nat, cbs: seq<Callbacks>)
    requires |w.chans| <= |cbs| && i <= |w.chans| && !w.open && NoneAfter(cbs) && Linked(w)
    ensures WalkFrom(w, i, cbs).stale == w.stale
    decreases |w.chans| - i
  {
    if i < |w.chans| && w.chans[i].live {
      var next := NextLinked(w.chans, i + 1);
      var w1 := Close(w, i, false, cbs);
      CloseUpTo(w, i, false, cbs);
      if next < |w.chans| {
        MovesLinked(w, w1, |w.chans|);
        assert w1.chans[next] == w.chans[next];
        WalkKeepsFresh(Touch(w1, next), next, cbs);
      }
    }
  }

  lemma {:induction false} CloseKeepsFresh(w: Conn, k: nat, fails: bool, cbs: seq<Callbacks>)
    requires |w.chans| <= |cbs| && Has(w, k) && NoneAfter(cbs) && Linked(w)
    ensures Close(w, k, fails, cbs).stale == w.stale
  {
    if !w.open {
      CloseUpTo(w, k, fails, cbs);
    } else if w.chans[k].st == Open && fails {
      var w1 := Put(w, k, w.chans[k].(st := Closing));
      BreakKeepsFresh(w1, cbs);
    }
  }

  lemma BreakKeepsFresh(w: Conn, cbs: seq<Callbacks>)
    requires |w.chans| <= |cbs| && NoneAfter(cbs) && Linked(w)
    ensures CloseConn(w, cbs).stale == w.stale
  {
    if w.open { WalkKeepsFresh(w.(open := false), NextLinked(w.chans, 0), cbs); }
  }

  lemma {:induction false} ExecKeepsFresh(w: Conn, ops: seq<Op>, cbs: seq<Callbacks>)
    requires |w.chans| <= |cbs| && NoneAfter(cbs) && Linked(w)
    ensures Exec(w, ops, cbs).stale == w.stale
    decreases Todo(w), B(w.open), 7, |ops|
  {
    if ops != [] {
      var w1 := ExecOp(w, ops[0], cbs);
      MovesTodo(w, w1, |w.chans|);
      MovesLinked(w, w1, |w.chans|);
      match ops[0] {
        case CloseIt(k, fails) => if Has(w, k) { CloseKeepsFresh(w, k, fails, cbs); }
        case DeleteIt(k, fails) => if Has(w, k) { DeleteKeepsFresh(w, k, fails, cbs); }
        case Break => BreakKeepsFresh(w, cbs);
      }
      ExecKeepsFresh(w1, ops[1..], cbs);
    }
  }

  lemma {:induction false} DeleteKeepsFresh(w: Conn, k: nat, fails: bool, cbs: seq<Callbacks>)
    requires |w.chans| <= |cbs| && Has(w, k) && NoneAfter(cbs) && Linked(w)
    ensures Delete(w, k, fails, cbs).stale == w.stale
    decreases Todo(w), B(w.open), 5, 0
  {
    if !w.chans[k].isFreeing {
      var w1 := MarkFreeing(w, k);
      if !w1.chans[k].isFreed { DismantleKeepsFresh(w1, k, fails, cbs); }
    }
  }

  lemma {:induction false} DismantleKeepsFresh(w: Conn, k: nat, fails: bool, cbs: seq<Callbacks>)
    requires |w.chans| <= |cbs| && Has(w, k) && w.chans[k].isFreeing && !w.chans[k].isFreed && NoneAfter(cbs) && Linked(w)
    ensures Dismantle(w, k, fails, cbs).stale == w.stale
    decreases Todo(w), B(w.open), 4, 0
  {
    var w1 := CloseNow(w, k, fails, cbs);
    CloseNowKeepsFresh(w, k, fails, cbs);
    MovesTodo(w, w1, |w.chans|);
    MovesLinked(w, w1, |w.chans|);
    assert Moves(w.chans[k], w1.chans[k]);
    var w2 := MarkFreed(w1, k);
    MovesLinked(w1, w2, k);
    ExecKeepsFresh(w2, cbs[k].onFree, cbs);
  }

  lemma {:induction false} CloseNowKeepsFresh(w: Conn, k: nat, fails: bool, cbs: seq<Callbacks>)
    requires |w.chans| <= |cbs| && Has(w, k) && w.chans[k].isFreeing && NoneAfter(cbs) && Linked(w)
    ensures CloseNow(w, k, fails, cbs).stale == w.stale
    decreases Todo(w), B(w.open), 3, 1
  {
    if w.chans[k].st == Open {
      var w1 := Close(w, k, fails, cbs);
      CloseKeepsFresh(w, k, fails, cbs);
      MovesTodo(w, w1, |w.chans|);
      MovesLinked(w, w1, |w.chans|);
      assert Moves(w.chans[k], w1.chans[k]);
      assert Touch(w1, k) == w1;
      if w1.chans[k].st == Closing && w1.chans[k].onClose {
        var w2 := CalledEarly(w1, k);
        MovesLinked(w1, w2, k);
        ExecKeepsFresh(w2, cbs[k].onClose, cbs);
      }
    }
  }

  lemma HappenKeepsFresh(w: Conn, e: Event, cbs: seq<Callbacks>)
    requires |w.chans| <= |cbs| && NoneAfter(cbs) && Linked(w)
    ensures Happen(w, e, cbs).stale == w.stale
  {
    match e
    case Registered(_) =>
    case OwnerCloses(k, fails) => if Has(w, k) { CloseKeepsFresh(w, k, fails, cbs); }
    case OwnerDeletes(k, fails) => if Has(w, k) { DeleteKeepsFresh(w, k, fails, cbs); }
    case PeerSends(k, ops) => ExecKeepsFresh(w, ops, cbs);
    case PeerCloses(k) =>
      if Has(w, k) && w.chans[k].st != Closed && !w.chans[k].isFreed && w.chans[k].onClose {
        MovesLinked(w, Called(w, k), k);
        ExecKeepsFresh(Called(w, k), cbs[k].onClose, cbs);
      }
    case ConnBreaks => BreakKeepsFresh(w, cbs);
    case ConnFreed => BreakKeepsFresh(w, cbs);
  }

  /** If close and free callbacks leave the channels alone that come after their own, no
      history touches the memory of a channel after it was freed. */
  lemma {:induction false} NoneAfterIsSafe(w: Conn, es: seq<Event>, cbs: seq<Callbacks>)
    requires |w.chans| <= |cbs| && Fine(w) && NoneAfter(cbs) && !w.stale
    ensures !History(w, es, cbs).stale
    decreases |es|
  {
    if es != [] {
      assert forall k | 0 <= k < |w.chans| :: FineChan(w.chans[k]);
      HappenKeepsFresh(w, es[0], cbs);
      HappenFine(w, es[0], cbs);
      NoneAfterIsSafe(Happen(w, es[0], cbs), es[1..], cbs);
    }
  }

  // ------------------------------------------------------- and when it is touched

  /** As the program registers its channels: the close callback deletes the channel. */
  function DeletesItself(j: nat): (cb: Callbacks) { Callbacks([DeleteIt(j, false)], []) }

  lemma ExecOne(w: Conn, op: Op, cbs: seq<Callbacks>)
    requires |w.chans| <= |cbs|
    ensures Exec(w, [op], cbs) == ExecOp(w, op, cbs)
  {
    assert [op][1..] == [];
    assert Exec(ExecOp(w, op, cbs), [], cbs) == ExecOp(w, op, cbs);
  }

  /** Deleting a closed channel that nobody is deleting frees it. */
  lemma DeleteFreesClosed(w: Conn, j: nat, fails: bool, cbs: seq<Callbacks>)
    requires |w.chans| <= |cbs| && Has(w, j) && w.chans[j].st == Closed && !w.chans[j].isFreeing
    ensures !Delete(w, j, fails, cbs).chans[j].live
  {
    var w1 := MarkFreeing(w, j);
    if !w1.chans[j].isFreed {
      var v := Dismantle(w1, j, fails, cbs);
      assert Counts(w1.chans[j], v.chans[j]);
    }
  }

  /** Without a connection, closing or deleting a channel that deletes itself frees it. */
  lemma CloseFrees(w: Conn, j: nat, fails: bool, cbs: seq<Callbacks>)
    requires |w.chans| <= |cbs| && !w.open && j < |w.chans| && w.chans[j] == NewChan(true) && cbs[j] == DeletesItself(j)
    ensures !Close(w, j, fails, cbs).chans[j].live
  {
    ExecOne(Called(w, j), DeleteIt(j, false), cbs);
    DeleteFreesClosed(Called(w, j), j, false, cbs);
  }

  lemma CloseCloses(w: Conn, k: nat, fails: bool, cbs: seq<Callbacks>)
    requires |w.chans| <= |cbs| && !w.open && Has(w, k) && w.chans[k].st == Open
    ensures Close(w, k, fails, cbs).chans[k].st == Closed
  {
    if w.chans[k].onClose {
      assert Moves(Called(w, k).chans[k], Exec(Called(w, k), cbs[k].onClose, cbs).chans[k]);
    }
  }

  lemma DismantleCloses(w: Conn, k: nat, fails: bool, cbs: seq<Callbacks>)
    requires |w.chans| <= |cbs| && !w.open && Has(w, k) && w.chans[k].isFreeing && !w.chans[k].isFreed
    requires w.chans[k].st == Open
    ensures Dismantle(w, k, fails, cbs).chans[k].st == Closed
  {
    CloseCloses(w, k, fails, cbs);
    var w1 := CloseNow(w, k, fails, cbs);
    assert w1.chans[k].st == Closed;
    assert Moves(w.chans[k], w1.chans[k]);
    assert Moves(MarkFreed(w1, k).chans[k], Exec(MarkFreed(w1, k), cbs[k].onFree, cbs).chans[k]);
  }

  lemma DeleteFrees(w: Conn, j: nat, fails: bool, cbs: seq<Callbacks>)
    requires |w.chans| <= |cbs| && !w.open && j < |w.chans| && w.chans[j] == NewChan(true)
    ensures !Delete(w, j, fails, cbs).chans[j].live
  {
    var w1 := MarkFreeing(w, j);
    DismantleCloses(w1, j, fails, cbs);
  }

  /** Channel `k` is closed, and those before it are gone. */
  predicate LastOfItsKind(w: Conn, k: nat) {
    k < |w.chans| && !w.open && w.chans[k].st == Closed && forall i | 0 <= i < k :: !w.chans[i].live
  }

  lemma DismantleClosedOnly(w: Conn, k: nat, fails: bool, cbs: seq<Callbacks>)
    requires |w.chans| <= |cbs| && Has(w, k) && w.chans[k].isFreeing && !w.chans[k].isFreed
    requires w.chans[k].st == Closed && cbs[k].onFree == []
    ensures Dismantle(w, k, fails, cbs) == MarkFreed(w, k)
  {
    assert CloseNow(w, k, fails, cbs) == w;
  }

  lemma FreeClosedOnly(w: Conn, w1: Conn, k: nat)
    requires k < |w.chans| && w1.open == w.open && |w1.chans| == |w.chans| && w1.chans == w.chans[k := w1.chans[k]]
    requires w1.chans[k].st == Closed
    ensures var v := FreeIfClosed(w1, k); v.open == w.open && v.chans == w.chans[k := v.chans[k]] && v.chans[k].st == Closed
  {
  }

  lemma DeleteClosedOnly(w: Conn, k: nat, fails: bool, cbs: seq<Callbacks>)
    requires |w.chans| <= |cbs| && LastOfItsKind(w, k) && w.chans[k].live && cbs[k].onFree == []
    ensures var v := Delete(w, k, fails, cbs); v.open == w.open && v.chans == w.chans[k := v.chans[k]] && v.chans[k].st == Closed
  {
    if !w.chans[k].isFreeing {
      var w1 := MarkFreeing(w, k);
      if !w1.chans[k].isFreed { DismantleClosedOnly(w1, k, fails, cbs); }
      FreeClosedOnly(w, if w1.chans[k].isFreed then w1 else MarkFreed(w1, k), k);
    } else {
      assert w.chans == w.chans[k := w.chans[k]];
    }
  }

  /** Then what is done to `k` and those before it touches no later channel. */
  lemma EarlierOp(w: Conn, op: Op, k: nat, cbs: seq<Callbacks>)
    requires |w.chans| <= |cbs| && LastOfItsKind(w, k) && cbs[k].onFree == [] && (op.Break? || op.k <= k)
    ensures var v := ExecOp(w, op, cbs);
            LastOfItsKind(v, k) && |v.chans| == |w.chans| && forall j | k < j < |w.chans| :: v.chans[j] == w.chans[j]
  {
    if op.DeleteIt? && op.k == k && w.chans[k].live {
      DeleteClosedOnly(w, k, op.fails, cbs);
    } else {
      assert ExecOp(w, op, cbs) == w;
    }
  }

  /** What is done to `j`, somewhere in the callback of an earlier channel, frees `j`. */
  lemma {:induction false} ExecFrees(w: Conn, ops: seq<Op>, p: nat, k: nat, j: nat, cbs: seq<Callbacks>)
    requires |w.chans| <= |cbs| && k < j < |w.chans| && LastOfItsKind(w, k) && cbs[k].onFree == []
    requires w.chans[j] == NewChan(true) && cbs[j] == DeletesItself(j)
    requires p < |ops| && !ops[p].Break? && ops[p].k == j && NotAfter(ops[..p], k)
    ensures !Exec(w, ops, cbs).chans[j].live
    decreases p
  {
    var w1 := ExecOp(w, ops[0], cbs);
    if p == 0 {
      match ops[0] {
        case CloseIt(_, fails) => CloseFrees(w, j, fails, cbs);
        case DeleteIt(_, fails) => DeleteFrees(w, j, fails, cbs);
      }
      assert Moves(w1.chans[j], Exec(w1, ops[1..], cbs).chans[j]);
    } else {
      assert ops[..p][0] == ops[0] && ops[0] in ops[..p];
      EarlierOp(w, ops[0], k, cbs);
      assert ops[1..][..p - 1] == ops[..p][1..];
      ExecFrees(w1, ops[1..], p - 1, k, j, cbs);
    }
  }

  /** A channel that was freed long ago. */
  function Gone(): (c: Chan) { Chan(Closed, true, true, false, false, false, false, 0, 1, 1, 1, false, false) }

  /** A connection on which only channels `k` and `j` are left. */
  function TwoLeft(k: nat, j: nat): (w: Conn)
    requires k < j
    ensures !w.stale && w.open && |w.chans| == j + 1
    ensures forall i | 0 <= i < |w.chans| :: w.chans[i] == ChanLeft(k, j, i)
  {
    Conn(true, seq(j + 1, i requires 0 <= i < j + 1 => ChanLeft(k, j, i)), false)
  }

  lemma TwoLeftFine(k: nat, j: nat)
    requires k < j
    ensures Fine(TwoLeft(k, j))
  {
    forall i | 0 <= i < j + 1 ensures FineChan(TwoLeft(k, j).chans[i]) { ChanLeftFine(k, j, i); }
  }

  lemma ChanLeftFine(k: nat, j: nat, i: nat)
    ensures FineChan(ChanLeft(k, j, i))
  {
  }

  function ChanLeft(k: nat, j: nat, i: nat): (c: Chan)
    ensures c.linked == (i == k || i == j) && c.live == c.linked
  {
    if i == k || i == j then NewChan(true) else Gone()
  }

  function CallbacksFor(k: nat, ops: seq<Op>, j: nat): (cbs: seq<Callbacks>)
    requires k < j
    ensures |cbs| == j + 1 && cbs[k] == Callbacks(ops, []) && cbs[j] == DeletesItself(j)
    ensures forall i | 0 <= i < |cbs| && i != k && i != j :: cbs[i] == Callbacks([], [])
  {
    seq(j + 1, i requires 0 <= i < j + 1 =>
      if i == k then Callbacks(ops, []) else if i == j then DeletesItself(j) else Callbacks([], []))
  }

  lemma {:induction false} FirstAfter(ops: seq<Op>, k: nat) returns (p: nat)
    requires !NotAfter(ops, k)
    ensures p < |ops| && !ops[p].Break? && ops[p].k > k && NotAfter(ops[..p], k)
    decreases |ops|
  {
    if !ops[0].Break? && ops[0].k > k {
      p := 0;
    } else {
      assert ops == [ops[0]] + ops[1..];
      var q := FirstAfter(ops[1..], k);
      p := q + 1;
      assert ops[..p] == [ops[0]] + ops[1..][..q];
    }
  }

  /** One turn of the walk. */
  lemma WalkTurn(w: Conn, k: nat, j: nat, cbs: seq<Callbacks>)
    requires |w.chans| <= |cbs| && !w.open && k < j < |w.chans| && w.chans[k].live && NextLinked(w.chans, k + 1) == j
    requires !Close(w, k, false, cbs).chans[j].live
    ensures WalkFrom(w, k, cbs).stale
  {
    var w2 := Touch(Close(w, k, false, cbs), j);
    assert WalkFrom(w, k, cbs) == WalkFrom(w2, j, cbs);
  }

  lemma BreaksStale(w: Conn, cbs: seq<Callbacks>)
    requires |w.chans| <= |cbs| && CloseConn(w, cbs).stale
    ensures History(w, [ConnBreaks], cbs).stale
  {
    assert [ConnBreaks][1..] == [];
    assert History(Happen(w, ConnBreaks, cbs), [], cbs) == Happen(w, ConnBreaks, cbs);
  }

  lemma OnlyTwoLinked(k: nat, j: nat)
    requires k < j
    ensures NextLinked(TwoLeft(k, j).chans, 0) == k && NextLinked(TwoLeft(k, j).chans, k + 1) == j
    ensures OnlyTwo(TwoLeft(k, j).(open := false), k, j)
  {
    NextOfTwo(TwoLeft(k, j).chans, k, j);
  }

  lemma NextOfTwo(cs: seq<Chan>, k: nat, j: nat)
    requires k < j < |cs| && forall i | 0 <= i < |cs| :: cs[i].linked == (i == k || i == j)
    ensures NextLinked(cs, 0) == k && NextLinked(cs, k + 1) == j
  {
    assert cs[k].linked && cs[j].linked;
  }

  /** A connection without its socket, with only these two channels left. */
  predicate OnlyTwo(w: Conn, k: nat, j: nat) {
    && k < j < |w.chans| && !w.open && w.chans[k] == NewChan(true) && w.chans[j] == NewChan(true)
    && forall i | 0 <= i < k :: !w.chans[i].live
  }

  lemma NextIsFreed(w: Conn, ops: seq<Op>, p: nat, k: nat, j: nat, cbs: seq<Callbacks>)
    requires OnlyTwo(w, k, j) && |w.chans| <= |cbs| && cbs[k] == Callbacks(ops, []) && cbs[j] == DeletesItself(j)
    requires p < |ops| && !ops[p].Break? && ops[p].k == j && NotAfter(ops[..p], k)
    ensures !Close(w, k, false, cbs).chans[j].live
  {
    var w1 := Called(w, k);
    assert LastOfItsKind(w1, k);
    ExecFrees(w1, ops, p, k, j, cbs);
    assert Close(w, k, false, cbs) == CloseAtOnce(w, k, cbs) == Exec(w1, ops, cbs);
  }

  lemma BreakTouchesFreed(w: Conn, ops: seq<Op>, p: nat, k: nat, j: nat, cbs: seq<Callbacks>)
    requires w.open && OnlyTwo(w.(open := false), k, j)
    requires NextLinked(w.chans, 0) == k && NextLinked(w.chans, k + 1) == j
    requires |w.chans| <= |cbs| && cbs[k] == Callbacks(ops, []) && cbs[j] == DeletesItself(j)
    requires p < |ops| && !ops[p].Break? && ops[p].k == j && NotAfter(ops[..p], k)
    ensures CloseConn(w, cbs).stale
  {
    var w1 := w.(open := false);
    NextIsFreed(w1, ops, p, k, j, cbs);
    WalkTurn(w1, k, j, cbs);
  }

  /** The connection breaks, and its walk comes to a channel that the one before it has freed. */
  lemma WalkTouchesFreed(ops: seq<Op>, k: nat) returns (j: nat)
    requires !NotAfter(ops, k)
    ensures k < j && History(TwoLeft(k, j), [ConnBreaks], CallbacksFor(k, ops, j)).stale
  {
    var p := FirstAfter(ops, k);
    j := ops[p].k;
    OnlyTwoLinked(k, j);
    BreakTouchesFreed(TwoLeft(k, j), ops, p, k, j, CallbacksFor(k, ops, j));
    BreaksStale(TwoLeft(k, j), CallbacksFor(k, ops, j));
  }

  /** The callbacks of all other channels leave later channels alone. */
  predicate NoneAfterBut(cbs: seq<Callbacks>, k: nat) {
    forall i | 0 <= i < |cbs| && i != k :: NotAfter(cbs[i].onClose, i) && NotAfter(cbs[i].onFree, i)
  }

  /** Any connection on which channel `k` has this close callback and no free callback. */
  predicate Uses(w: Conn, cbs: seq<Callbacks>, k: nat, ops: seq<Op>) {
    && |w.chans| <= |cbs| && Fine(w) && !w.stale
    && k < |cbs| && cbs[k] == Callbacks(ops, []) && NoneAfterBut(cbs, k)
  }

  /** A close callback is safe on every connection and in every history if and only if it
      leaves the channels alone that come after its own. */
  lemma SafeIffNotAfter(k: nat, ops: seq<Op>)
    ensures (forall w, cbs, es | Uses(w, cbs, k, ops) :: !History(w, es, cbs).stale) <==> NotAfter(ops, k)
  {
    if NotAfter(ops, k) {
      forall w, cbs, es | Uses(w, cbs, k, ops) ensures !History(w, es, cbs).stale {
        assert NoneAfter(cbs);
        NoneAfterIsSafe(w, es, cbs);
      }
    } else {
      var j := WalkTouchesFreed(ops, k);
      TwoLeftFine(k, j);
      assert Uses(TwoLeft(k, j), CallbacksFor(k, ops, j), k, ops);
    }
  }

  /** ngcs_chan_close_now called from outside, on a channel that nobody is deleting: it touches
      freed memory exactly if there is no connection and the close callback deletes the
      channel. */
  lemma CloseNowTouchesFreedIff(w: Conn, k: nat, fails: bool, cbs: seq<Callbacks>)
    requires |w.chans| <= |cbs| && Has(w, k) && w.chans[k].st == Open && !w.chans[k].isFreeing
    requires Linked(w) && !w.stale && NoneAfter(cbs)
    ensures CloseNow(w, k, fails, cbs).stale <==> !w.open && w.chans[k].onClose && Deletes(cbs[k].onClose, k)
  {
    var w1 := Close(w, k, fails, cbs);
    CloseKeepsFresh(w, k, fails, cbs);
    MovesLinked(w, w1, |w.chans|);
    if w.open {
      OpenCloseKeeps(w, k, fails, cbs);
      HurryKeepsFresh(Touch(w1, k), k, cbs);
    } else {
      CloseCloses(w, k, fails, cbs);
      if w.chans[k].onClose { DeletedIff(Called(w, k), cbs[k].onClose, k, cbs); }
    }
  }

  lemma OpenCloseKeeps(w: Conn, k: nat, fails: bool, cbs: seq<Callbacks>)
    requires |w.chans| <= |cbs| && Has(w, k) && w.chans[k].st == Open && w.open
    ensures Has(Close(w, k, fails, cbs), k)
  {
    var w1 := Put(w, k, w.chans[k].(st := Closing));
    if fails { assert Moves(w1.chans[k], CloseConn(w1, cbs).chans[k]); }
  }

  lemma HurryKeepsFresh(w: Conn, k: nat, cbs: seq<Callbacks>)
    requires |w.chans| <= |cbs| && k < |w.chans| && w.chans[k].st != Open && Linked(w) && NoneAfter(cbs)
    ensures Hurry(w, k, cbs).stale == w.stale
  {
    if w.chans[k].st == Closing && w.chans[k].onClose {
      MovesLinked(w, CalledEarly(w, k), k);
      ExecKeepsFresh(CalledEarly(w, k), cbs[k].onClose, cbs);
    }
  }

  predicate Deletes(ops: seq<Op>, k: nat) { exists op | op in ops :: op.DeleteIt? && op.k == k }

  lemma {:induction false} DeletedIff(w: Conn, ops: seq<Op>, k: nat, cbs: seq<Callbacks>)
    requires |w.chans| <= |cbs| && !w.open && Has(w, k) && w.chans[k].st == Closed && !w.chans[k].isFreeing
    requires NoneAfter(cbs) && NotAfter(ops, k)
    ensures !Exec(w, ops, cbs).chans[k].live <==> Deletes(ops, k)
    decreases |ops|
  {
    if ops != [] {
      var op, w1 := ops[0], ExecOp(w, ops[0], cbs);
      assert op in ops && forall x <- ops :: x == op || x in ops[1..];
      assert Deletes(ops, k) <==> (op.DeleteIt? && op.k == k) || Deletes(ops[1..], k);
      if op.DeleteIt? && op.k == k {
        DeleteFreesClosed(w, k, op.fails, cbs);
        assert Moves(w1.chans[k], Exec(w1, ops[1..], cbs).chans[k]);
      } else {
        OtherOpKeeps(w, op, k, cbs);
        DeletedIff(w1, ops[1..], k, cbs);
      }
    }
  }

  lemma OtherOpKeeps(w: Conn, op: Op, k: nat, cbs: seq<Callbacks>)
    requires |w.chans| <= |cbs| && !w.open && Has(w, k) && w.chans[k].st == Closed && NoneAfter(cbs)
    requires op.Break? || op.k < k || (op.k == k && op.CloseIt?)
    ensures ExecOp(w, op, cbs).chans[k] == w.chans[k] && !ExecOp(w, op, cbs).open
  {
    if op.Break? { assert CloseConn(w, cbs) == w; }
    else if op.k < k { ExecOpUpTo(w, op, op.k, cbs); }
    else { assert Close(w, k, op.fails, cbs) == w; }
  }
}
