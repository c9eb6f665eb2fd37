/**
  Messages on a stream socket.  A message is three native ints (channel, type, length)
  followed by that many bytes; a negative length closes the channel and carries none.

  The sender keeps what the socket would not take yet in a buffer; the receiver cuts
  messages out of whatever pieces arrive.
 */
module NgcsStream {
  import opened Basics
  import opened NgcsWire

  datatype Msg = Msg(chan: int32, typ: int32, len: int32, data: seq<byte>)

  const FRAME_HEAD := 12

  predicate Proper(m: Msg) {
    |m.data| == if m.len < 0 then 0 else m.len
  }

  predicate AllProper(ms: seq<Msg>) {
    forall i | 0 <= i < |ms| :: Proper(ms[i])
  }

  function Head(m: Msg): (b: seq<byte>)
    ensures |b| == FRAME_HEAD
  {
    EncodeInt(m.chan) + EncodeInt(m.typ) + EncodeInt(m.len)
  }

  function Frame(m: Msg): (b: seq<byte>)
    ensures |b| == FRAME_HEAD + |m.data|
  {
    Head(m) + m.data
  }

  function Frames(ms: seq<Msg>): (b: seq<byte>) {
    if ms == [] then [] else Frame(ms[0]) + Frames(ms[1..])
  }

  lemma {:induction false} FramesConcat(a: seq<Msg>, b: seq<Msg>)
    ensures Frames(a + b) == Frames(a) + Frames(b)
    decreases |a|
  {
    if a == [] {
      assert a + b == b;
    } else {
      assert (a + b)[1..] == a[1..] + b;
      FramesConcat(a[1..], b);
      Assoc(Frame(a[0]), Frames(a[1..]), Frames(b));
    }
  }

  lemma FramesSnoc(a: seq<Msg>, m: Msg)
    ensures Frames(a + [m]) == Frames(a) + Frame(m)
  {
    FramesConcat(a, [m]);
    assert [m][1..] == [];
    assert Frames([m]) == Frame(m) + [];
  }

  /** The head of a message, read back from its first twelve bytes. */
  function ReadHead(b: seq<byte>): (m: Msg)
    requires |b| == FRAME_HEAD
  {
    Msg(DecodeInt(b[..4]), DecodeInt(b[4..8]), DecodeInt(b[8..12]), [])
  }

  lemma ReadHeadOf(m: Msg)
    ensures ReadHead(Head(m)) == m.(data := [])
  {
    var b := Head(m);
    assert b[..4] == EncodeInt(m.chan) && b[4..8] == EncodeInt(m.typ) && b[8..12] == EncodeInt(m.len);
    DecodeEncode(m.chan);
    DecodeEncode(m.typ);
    DecodeEncode(m.len);
  }

  lemma HeadOfRead(b: seq<byte>)
    requires |b| == FRAME_HEAD
    ensures Head(ReadHead(b)) == b
  {
    EncodeDecode(b[..4]);
    EncodeDecode(b[4..8]);
    EncodeDecode(b[8..12]);
    assert b == b[..4] + b[4..8] + b[8..12];
  }

  // --------------------------------------------------- frames decode only one way

  predicate Prefix<T(==)>(a: seq<T>, b: seq<T>) {
    |a| <= |b| && b[..|a|] == a
  }

  /** Two messages whose frames begin the same stream are the same message. */
  lemma SameFirst(m: Msg, x: seq<byte>, n: Msg, y: seq<byte>)
    requires Proper(m) && Proper(n) && Prefix(Frame(m) + x, Frame(n) + y)
    ensures m == n && Prefix(x, y)
  {
    var a, b := Frame(m) + x, Frame(n) + y;
    assert b[..|a|][..FRAME_HEAD] == b[..FRAME_HEAD];
    assert a[..FRAME_HEAD] == Head(m) && b[..FRAME_HEAD] == Head(n);
    ReadHeadOf(m);
    ReadHeadOf(n);
    var e := FRAME_HEAD + |m.data|;
    assert a[FRAME_HEAD..e] == m.data && b[FRAME_HEAD..e] == n.data;
    assert b[..|a|][FRAME_HEAD..e] == b[FRAME_HEAD..e];
    assert x == a[e..] == b[..|a|][e..] && y == b[e..];
    assert b[..|a|][e..] == b[e..][..|x|];
  }

  /** If the frames of `a` begin the frames of `b`, then `a` begins `b`. */
  lemma {:induction false} PrefixOfFrames(a: seq<Msg>, x: seq<byte>, b: seq<Msg>)
    requires AllProper(a) && AllProper(b) && Prefix(Frames(a) + x, Frames(b))
    ensures Prefix(a, b) && Prefix(x, Frames(b[|a|..]))
    decreases |a|
  {
    if a == [] {
      assert Frames(a) + x == x && b[0..] == b;
    } else {
      Assoc(Frame(a[0]), Frames(a[1..]), x);
      SameFirst(a[0], Frames(a[1..]) + x, b[0], Frames(b[1..]));
      PrefixOfFrames(a[1..], x, b[1..]);
      assert b == [b[0]] + b[1..] && a == [a[0]] + a[1..];
      assert b[1..][|a| - 1..] == b[|a|..];
    }
  }

  // ---------------------------------------------------------------------- receiver

  /** The client's receiver: unread bytes, the head of a message whose body has not all
      come yet, and the messages dispatched so far. */
  datatype Receiver = Receiver(buf: seq<byte>, head: Option<Msg>, got: seq<Msg>)

  /** All the bytes it has been given. */
  function Taken(r: Receiver): (b: seq<byte>) {
    Frames(r.got) + Leftover(r)
  }

  /** Those that are not part of a dispatched message. */
  function Leftover(r: Receiver): (b: seq<byte>) {
    if r.head.Some? then Head(r.head.value) + r.buf else r.buf
  }

  predicate ReceiverOk(r: Receiver) {
    AllProper(r.got) && (r.head.Some? ==> r.head.value.data == [])
  }

  /** Nothing more can be cut out. */
  predicate Starved(r: Receiver) {
    if r.head.None? then |r.buf| < FRAME_HEAD else |r.buf| < r.head.value.len
  }

  function Cut(r: Receiver): (n: Receiver)
    requires !Starved(r)
  {
    if r.head.None? then
      r.(buf := r.buf[FRAME_HEAD..], head := Some(ReadHead(r.buf[..FRAME_HEAD])))
    else
      var h := r.head.value;
      var l := if h.len < 0 then 0 else h.len;
      Receiver(r.buf[l..], None, r.got + [h.(data := r.buf[..l])])
  }

  lemma CutKeeps(r: Receiver)
    requires ReceiverOk(r) && !Starved(r)
    ensures ReceiverOk(Cut(r)) && Taken(Cut(r)) == Taken(r) && Prefix(r.got, Cut(r).got)
  {
    if r.head.None? {
      HeadOfRead(r.buf[..FRAME_HEAD]);
      Halves(r.buf, FRAME_HEAD);
    } else {
      var h := r.head.value;
      var l := if h.len < 0 then 0 else h.len;
      CutBody(r.got, h, r.buf, l);
    }
  }

  lemma CutBody(got: seq<Msg>, h: Msg, buf: seq<byte>, l: nat)
    requires l <= |buf|
    ensures Frames(got + [h.(data := buf[..l])]) + buf[l..] == Frames(got) + (Head(h) + buf)
  {
    var m := h.(data := buf[..l]);
    FramesSnoc(got, m);
    assert Head(m) == Head(h);
    Assoc(Frames(got), Frame(m), buf[l..]);
    Assoc(Head(h), buf[..l], buf[l..]);
    Halves(buf, l);
  }

  /** The parsing loop of try_recv. */
  function CutAll(r: Receiver): (n: Receiver)
    ensures Starved(n)
    decreases |r.buf|, if r.head.Some? then 1 else 0
  {
    if Starved(r) then r else CutAll(Cut(r))
  }

  lemma {:induction false} CutAllKeeps(r: Receiver)
    requires ReceiverOk(r)
    ensures var n := CutAll(r); ReceiverOk(n) && Taken(n) == Taken(r) && Prefix(r.got, n.got)
    decreases |r.buf|, if r.head.Some? then 1 else 0
  {
    if !Starved(r) {
      CutKeeps(r);
      CutAllKeeps(Cut(r));
      assert CutAll(r).got[..|r.got|] == CutAll(r).got[..|Cut(r).got|][..|r.got|];
    }
  }

  function Receive(r: Receiver, chunk: seq<byte>): (n: Receiver) {
    CutAll(r.(buf := r.buf + chunk))
  }

  lemma ReceiveKeeps(r: Receiver, chunk: seq<byte>)
    requires ReceiverOk(r)
    ensures var n := Receive(r, chunk);
            ReceiverOk(n) && Starved(n) && Taken(n) == Taken(r) + chunk && Prefix(r.got, n.got)
  {
    var r1 := r.(buf := r.buf + chunk);
    CutAllKeeps(r1);
    if r.head.Some? {
      Assoc(Head(r.head.value), r.buf, chunk);
      Assoc(Frames(r.got), Head(r.head.value) + r.buf, chunk);
    } else {
      Assoc(Frames(r.got), r.buf, chunk);
    }
  }

  const Idle := Receiver([], None, [])

  function ReceiveAll(chunks: seq<seq<byte>>): (r: Receiver) {
    if chunks == [] then Idle
    else Receive(ReceiveAll(chunks[..|chunks| - 1]), chunks[|chunks| - 1])
  }

  function Joined(chunks: seq<seq<byte>>): (b: seq<byte>) {
    if chunks == [] then [] else Joined(chunks[..|chunks| - 1]) + chunks[|chunks| - 1]
  }

  lemma {:induction false} ReceiveAllTakes(chunks: seq<seq<byte>>)
    ensures var r := ReceiveAll(chunks);
            ReceiverOk(r) && Starved(r) && Taken(r) == Joined(chunks)
    decreases |chunks|
  {
    if chunks != [] {
      var n := |chunks| - 1;
      ReceiveAllTakes(chunks[..n]);
      ReceiveKeeps(ReceiveAll(chunks[..n]), chunks[n]);
    }
  }

  /** What a starved receiver is left with does not hold a whole message. */
  lemma NoFrameLeft(r: Receiver, m: Msg, y: seq<byte>)
    requires ReceiverOk(r) && Starved(r) && Proper(m)
    ensures Leftover(r) != Frame(m) + y
  {
    if r.head.Some? {
      var h := r.head.value;
      assert (Head(h) + r.buf)[..FRAME_HEAD] == Head(h);
      assert (Frame(m) + y)[..FRAME_HEAD] == Head(m);
      ReadHeadOf(h);
      ReadHeadOf(m);
    }
  }

  /** A starved receiver that was given all the frames has dispatched all the messages. */
  lemma StarvedHasAll(r: Receiver, ms: seq<Msg>)
    requires ReceiverOk(r) && Starved(r) && AllProper(ms) && Taken(r) == Frames(ms)
    ensures r.got == ms
  {
    PrefixOfFrames(r.got, Leftover(r), ms);
    var rest := ms[|r.got|..];
    assert ms == r.got + rest;
    FramesConcat(r.got, rest);
    assert Leftover(r) == Taken(r)[|Frames(r.got)|..] == Frames(rest);
    if rest != [] { NoFrameLeft(r, rest[0], Frames(rest[1..])); }
  }

  /** However the bytes are cut into pieces: what the receiver dispatches is a prefix of
      what was framed, in order; and once all the bytes are there, it is all of it. */
  lemma AnyChunking(chunks: seq<seq<byte>>, ms: seq<Msg>)
    requires AllProper(ms) && Prefix(Joined(chunks), Frames(ms))
    ensures Prefix(ReceiveAll(chunks).got, ms)
    ensures Joined(chunks) == Frames(ms) ==> ReceiveAll(chunks).got == ms
  {
    ReceiveAllTakes(chunks);
    var r := ReceiveAll(chunks);
    PrefixOfFrames(r.got, Leftover(r), ms);
    if Joined(chunks) == Frames(ms) { StarvedHasAll(r, ms); }
  }

  // ------------------------------------------------------------------------ sender

  /** What send() answers: it took some bytes, it would block, or the connection broke. */
  datatype Answer = Sent(n: nat) | Again | Broken

  /** The bytes not yet sent, those on the wire, and the messages accepted so far. */
  datatype Sender = Sender(open: bool, pending: seq<byte>, wire: seq<byte>, accepted: seq<Msg>)

  /** While the connection is open nothing is lost, doubled or reordered: the wire and the
      buffer together are the frames of the accepted messages. */
  predicate SenderOk(s: Sender) {
    && AllProper(s.accepted)
    && (s.open ==> s.wire + s.pending == Frames(s.accepted))
    && Prefix(s.wire, Frames(s.accepted))
  }

  /** send() takes no more than it was given. */
  predicate Possible(s: Sender, a: Answer) {
    s.open && a.Sent? ==> a.n <= |s.pending|
  }

  /** ngcs_conn_write_ready. */
  function Flush(s: Sender, a: Answer): (r: Sender)
    requires Possible(s, a)
  {
    if !s.open || s.pending == [] then s
    else
      match a
      case Sent(n) => s.(pending := s.pending[n..], wire := s.wire + s.pending[..n])
      case Again => s
      case Broken => s.(open := false)
  }

  function Queue(s: Sender, m: Msg): (r: Sender) {
    s.(pending := s.pending + Frame(m), accepted := s.accepted + [m])
  }

  /** ngcs_conn_send; `noMemory` says that the buffer could not grow. */
  function SendOn(s: Sender, m: Msg, noMemory: bool, a: Answer): (r: (Sender, bool))
    requires Possible(Queue(s, m), a)
  {
    if !s.open || noMemory then (s, true)
    else
      var s1 := Flush(Queue(s, m), a);
      (s1, !s1.open)
  }

  lemma FlushKeeps(s: Sender, a: Answer)
    requires SenderOk(s) && Possible(s, a)
    ensures SenderOk(Flush(s, a)) && Flush(s, a).accepted == s.accepted && Prefix(s.wire, Flush(s, a).wire)
  {
    if s.open && s.pending != [] && a.Sent? {
      Halves(s.pending, a.n);
      Assoc(s.wire, s.pending[..a.n], s.pending[a.n..]);
    }
  }

  lemma QueueKeeps(s: Sender, m: Msg)
    requires SenderOk(s) && s.open && Proper(m)
    ensures SenderOk(Queue(s, m))
  {
    FramesSnoc(s.accepted, m);
    Assoc(s.wire, s.pending, Frame(m));
    var r := Queue(s, m);
    assert r.wire + r.pending == Frames(r.accepted);
    assert (r.wire + r.pending)[..|r.wire|] == r.wire;
  }

  // --------------------------------------------------------------------- whole runs

  /** A sender, a receiver, and how much of the wire the receiver has been given. */
  datatype System = System(tx: Sender, taken: nat, rx: Receiver)

  datatype Step =
    | Post(m: Msg, noMemory: bool, a: Answer)
    | Writable(a: Answer)
    | CloseDown
    | Deliver(n: nat)

  predicate Can(y: System, st: Step) {
    match st
    case Post(m, noMemory, a) => Proper(m) && Possible(Queue(y.tx, m), a)
    case Writable(a) => Possible(y.tx, a)
    case CloseDown => true
    case Deliver(n) => y.taken + n <= |y.tx.wire|
  }

  function Next(y: System, st: Step): (z: System)
    requires Can(y, st)
  {
    match st
    case Post(m, noMemory, a) => y.(tx := SendOn(y.tx, m, noMemory, a).0)
    case Writable(a) => y.(tx := Flush(y.tx, a))
    case CloseDown => y.(tx := y.tx.(open := false))
    case Deliver(n) =>
      y.(taken := y.taken + n, rx := Receive(y.rx, y.tx.wire[y.taken..y.taken + n]))
  }

  predicate SystemOk(y: System) {
    && SenderOk(y.tx) && ReceiverOk(y.rx) && Starved(y.rx)
    && y.taken <= |y.tx.wire| && Taken(y.rx) == y.tx.wire[..y.taken]
  }

  const Fresh := System(Sender(true, [], [], []), 0, Idle)

  lemma NextKeeps(y: System, st: Step)
    requires SystemOk(y) && Can(y, st)
    ensures SystemOk(Next(y, st))
  {
    match st
    case Post(m, noMemory, a) =>
      if y.tx.open && !noMemory {
        QueueKeeps(y.tx, m);
        FlushKeeps(Queue(y.tx, m), a);
        WireGrows(y.tx.wire, Next(y, st).tx.wire, y.taken);
      }
    case Writable(a) =>
      FlushKeeps(y.tx, a);
      WireGrows(y.tx.wire, Next(y, st).tx.wire, y.taken);
    case CloseDown =>
    case Deliver(n) =>
      var w := y.tx.wire;
      ReceiveKeeps(y.rx, w[y.taken..y.taken + n]);
      assert w[..y.taken + n] == w[..y.taken] + w[y.taken..y.taken + n];
  }

  lemma WireGrows(a: seq<byte>, b: seq<byte>, n: nat)
    requires Prefix(a, b) && n <= |a|
    ensures b[..n] == a[..n]
  {
    assert b[..|a|][..n] == b[..n];
  }

  /** A run: the systems and the steps between them, from a fresh connection. */
  predicate Run(ys: seq<System>, steps: seq<Step>) {
    && |ys| == |steps| + 1 && ys[0] == Fresh
    && forall i | 0 <= i < |steps| :: Can(ys[i], steps[i]) && ys[i + 1] == Next(ys[i], steps[i])
  }

  lemma {:induction false} RunKeeps(ys: seq<System>, steps: seq<Step>, i: nat)
    requires Run(ys, steps) && i <= |steps|
    ensures SystemOk(ys[i])
  {
    if i == 0 {
      assert Frames([]) == [] && Taken(Idle) == [];
    } else {
      RunKeeps(ys, steps, i - 1);
      assert Can(ys[i - 1], steps[i - 1]);
      NextKeeps(ys[i - 1], steps[i - 1]);
    }
  }

  /** In every run, at every point: the messages dispatched are a prefix of those accepted
      for sending, in order; and if the connection is open, the buffer empty and the wire
      read to its end, they are all of them. */
  lemma DispatchedInOrder(ys: seq<System>, steps: seq<Step>, i: nat)
    requires Run(ys, steps) && i <= |steps|
    ensures Prefix(ys[i].rx.got, ys[i].tx.accepted)
    ensures ys[i].tx.open && ys[i].tx.pending == [] && ys[i].taken == |ys[i].tx.wire| ==>
              ys[i].rx.got == ys[i].tx.accepted
  {
    RunKeeps(ys, steps, i);
    var y := ys[i];
    WireGrows(y.tx.wire, Frames(y.tx.accepted), y.taken);
    PrefixOfFrames(y.rx.got, Leftover(y.rx), y.tx.accepted);
    if y.tx.open && y.tx.pending == [] && y.taken == |y.tx.wire| {
      assert y.tx.wire + [] == y.tx.wire;
      StarvedHasAll(y.rx, y.tx.accepted);
    }
  }

  // ------------------------------------------------------------ counted by the steps

  /** The step ends the connection: it is closed, or found broken with something to send. */
  predicate Breaks(y: System, st: Step) {
    match st
    case Post(_, noMemory, a) => !noMemory && a.Broken?
    case Writable(a) => a.Broken? && y.tx.pending != []
    case CloseDown => true
    case Deliver(_) => false
  }

  /** The message that a step queues. */
  function Posts(y: System, st: Step): (ms: seq<Msg>) {
    if st.Post? && !st.noMemory && y.tx.open then [st.m] else []
  }

  /** How many bytes the socket takes in a step. */
  function Takes(y: System, st: Step): (n: nat) {
    match st
    case Post(_, noMemory, a) => if y.tx.open && !noMemory && a.Sent? then a.n else 0
    case Writable(a) => if y.tx.open && a.Sent? && y.tx.pending != [] then a.n else 0
    case _ => 0
  }

  lemma StepCounts(y: System, st: Step)
    requires Can(y, st)
    ensures var z := Next(y, st);
            && z.tx.open == (y.tx.open && !Breaks(y, st))
            && z.tx.accepted == y.tx.accepted + Posts(y, st)
            && |z.tx.wire| == |y.tx.wire| + Takes(y, st)
            && z.taken == y.taken + if st.Deliver? then st.n else 0
  {
    if st.Post? { assert Queue(y.tx, st.m).pending != []; }
  }

  /** What a call of send answers: an error exactly if the connection was closed, the buffer
      could not grow, or the connection broke. */
  lemma SendSays(s: Sender, m: Msg, noMemory: bool, a: Answer)
    requires Possible(Queue(s, m), a)
    ensures SendOn(s, m, noMemory, a).1 <==> !s.open || noMemory || a.Broken?
  {
    assert Queue(s, m).pending != [];
  }

  function Posted(ys: seq<System>, steps: seq<Step>, i: nat): (ms: seq<Msg>)
    requires i <= |steps| <= |ys|
  {
    if i == 0 then [] else Posted(ys, steps, i - 1) + Posts(ys[i - 1], steps[i - 1])
  }

  function TakenBySocket(ys: seq<System>, steps: seq<Step>, i: nat): (n: nat)
    requires i <= |steps| <= |ys|
  {
    if i == 0 then 0 else TakenBySocket(ys, steps, i - 1) + Takes(ys[i - 1], steps[i - 1])
  }

  function Read(steps: seq<Step>, i: nat): (n: nat)
    requires i <= |steps|
  {
    if i == 0 then 0 else Read(steps, i - 1) + if steps[i - 1].Deliver? then steps[i - 1].n else 0
  }

  predicate Unbroken(ys: seq<System>, steps: seq<Step>, i: nat)
    requires i <= |steps| <= |ys|
  {
    forall j | 0 <= j < i :: !Breaks(ys[j], steps[j])
  }

  lemma {:induction false} RunCounts(ys: seq<System>, steps: seq<Step>, i: nat)
    requires Run(ys, steps) && i <= |steps|
    ensures var y := ys[i];
            && y.tx.open == Unbroken(ys, steps, i) && y.tx.accepted == Posted(ys, steps, i)
            && |y.tx.wire| == TakenBySocket(ys, steps, i) && y.taken == Read(steps, i)
  {
    if i > 0 {
      RunCounts(ys, steps, i - 1);
      assert Can(ys[i - 1], steps[i - 1]);
      StepCounts(ys[i - 1], steps[i - 1]);
    }
  }

  /** In every run: what is dispatched is a prefix of the messages posted while the connection
      was open and the buffer could grow; and if nothing broke or closed it, the socket took
      as many bytes as their frames have, and as many were read, it is all of them. */
  lemma PostedArrive(ys: seq<System>, steps: seq<Step>, i: nat)
    requires Run(ys, steps) && i <= |steps|
    ensures Prefix(ys[i].rx.got, Posted(ys, steps, i))
    ensures AllProper(Posted(ys, steps, i))
    ensures Unbroken(ys, steps, i) && |Frames(Posted(ys, steps, i))| == TakenBySocket(ys, steps, i) == Read(steps, i) ==>
              ys[i].rx.got == Posted(ys, steps, i)
  {
    RunCounts(ys, steps, i);
    RunKeeps(ys, steps, i);
    DispatchedInOrder(ys, steps, i);
  }

  // ---------------------------------------------------------------------- in place

  /** ngcs_conn: the write buffer and how much of it is in use. */
  class Conn {
    var open: bool
    var wrbuf: array<byte>
    var towrite: nat
    ghost var wire: seq<byte>
    ghost var accepted: seq<Msg>

    ghost predicate Valid()
      reads this, wrbuf
    {
      towrite <= wrbuf.Length && SenderOk(View())
    }

    ghost function View(): (s: Sender)
      reads this, wrbuf
      requires towrite <= wrbuf.Length
    {
      Sender(open, wrbuf[..towrite], wire, accepted)
    }

    constructor ()
      ensures Valid() && View() == Fresh.tx && fresh(wrbuf)
    {
      open, towrite, wire, accepted := true, 0, [], [];
      wrbuf := new byte[1024];
      new;
      assert Frames([]) == [];
    }

    /** The socket took the first `n` bytes; the rest moves to the front. */
    method Take(n: nat)
      requires n <= towrite <= wrbuf.Length
      modifies this`towrite, this`wire, wrbuf
      ensures towrite <= wrbuf.Length
      ensures View() == old(View()).(pending := old(View()).pending[n..], wire := old(wire) + old(View()).pending[..n])
    {
      ghost var pending := wrbuf[..towrite];
      wire := wire + pending[..n];
      MoveDown(wrbuf, n, towrite - n);
      towrite := towrite - n;
      assert wrbuf[..towrite] == pending[n..];
    }

    method WriteReady(a: Answer)
      requires Valid() && Possible(View(), a)
      modifies this, wrbuf
      ensures Valid() && wrbuf == old(wrbuf) && View() == Flush(old(View()), a)
    {
      FlushKeeps(View(), a);
      if !open || towrite <= 0 { return; }
      match a {
        case Broken => open := false;
        case Again =>
        case Sent(n) => Take(n);
      }
    }

    /** Copy the message behind what is waiting. */
    method Append(m: Msg)
      requires towrite + FRAME_HEAD + |m.data| <= wrbuf.Length
      modifies this`towrite, this`accepted, wrbuf
      ensures towrite <= wrbuf.Length && View() == Queue(old(View()), m)
    {
      ghost var pending := wrbuf[..towrite];
      Write(wrbuf, towrite, Head(m));
      Write(wrbuf, towrite + FRAME_HEAD, m.data);
      assert wrbuf[..towrite + FRAME_HEAD + |m.data|] == pending + (Head(m) + m.data);
      towrite := towrite + FRAME_HEAD + |m.data|;
      accepted := accepted + [m];
    }

    /** ngcs_conn_send of a message. */
    method Send(m: Msg, noMemory: bool, a: Answer) returns (failed: bool)
      requires Valid() && Proper(m) && Possible(Queue(View(), m), a)
      requires noMemory ==> wrbuf.Length - towrite < FRAME_HEAD + |m.data|
      modifies this, wrbuf
      ensures Valid() && (View(), failed) == SendOn(old(View()), m, noMemory, a)
      ensures wrbuf == old(wrbuf) || fresh(wrbuf)
    {
      if !open { return true; }
      QueueKeeps(View(), m);
      if wrbuf.Length - towrite < FRAME_HEAD + |m.data| {
        if noMemory { return true; }
        Grow(FRAME_HEAD + |m.data|);
      }
      Append(m);
      WriteReady(a);
      return !open;
    }

    /** realloc to exactly the room needed. */
    method Grow(total: nat)
      requires towrite <= wrbuf.Length
      modifies this`wrbuf
      ensures towrite <= wrbuf.Length - total && View() == old(View()) && fresh(wrbuf)
    {
      var bigger := new byte[towrite + total];
      forall i | 0 <= i < towrite { bigger[i] := wrbuf[i]; }
      assert bigger[..towrite] == wrbuf[..towrite];
      wrbuf := bigger;
    }
  }

  method Write(buf: array<byte>, at: nat, b: seq<byte>)
    requires at + |b| <= buf.Length
    modifies buf
    ensures buf[..at] == old(buf[..at]) && buf[at..at + |b|] == b
    ensures buf[at + |b|..] == old(buf[at + |b|..])
  {
    forall i | 0 <= i < |b| { buf[at + i] := b[i]; }
  }

  /** memmove to the front. */
  method MoveDown(buf: array<byte>, from: nat, n: nat)
    requires from + n <= buf.Length
    modifies buf
    ensures buf[..n] == old(buf[from..from + n])
  {
    var i := 0;
    while i < n
      invariant 0 <= i <= n
      invariant forall k | 0 <= k < i :: buf[k] == old(buf[from + k])
      invariant forall k | i <= k < buf.Length :: buf[k] == old(buf[k])
    {
      buf[i] := buf[from + i];
      i := i + 1;
    }
  }

  /** The bytes of a message: channel 1, type 2, one byte of data. */
  lemma MessageBytes(x: byte)
    ensures Frame(Msg(1, 2, 1, [x])) == [1, 0, 0, 0, 2, 0, 0, 0, 1, 0, 0, 0, x]
  {
    IntBytes(1);
    IntBytes(2);
  }

  /** And of a close of channel 3. */
  lemma CloseBytes()
    ensures Frame(Msg(3, 0, -1, [])) == [3, 0, 0, 0, 0, 0, 0, 0, 255, 255, 255, 255]
  {
    IntBytes(3);
    IntBytes(0);
    IntBytes(-1);
  }
}
