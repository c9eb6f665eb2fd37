/**
  The two receiving ends in place: the Python client's, which never blocks and keeps
  what it cannot use yet, and the C side's, which blocks until a whole message is there.
 */
module NgcsReceive {
  import opened Basics
  import opened NgcsWire
  import opened NgcsStream

  /** AsyncConnect, as far as receiving goes. */
  class AsyncConnect {
    var recvbuf: seq<byte>
    var head: Option<Msg>
    var got: seq<Msg>

    constructor () ensures View() == Idle { recvbuf, head, got := [], None, []; }

    function View(): (r: Receiver)
      reads this
    {
      Receiver(recvbuf, head, got)
    }

    /** try_recv: `chunks` are the answers of recv() up to the one that would block; an
        empty one is the end of the stream and stops the reading. */
    method TryRecv(chunks: seq<seq<byte>>)
      requires ReceiverOk(View())
      modifies this
      ensures ReceiverOk(View()) && Starved(View())
      ensures View() == Receive(old(View()), Readable(chunks))
    {
      ReceiveKeeps(View(), Readable(chunks));
      var i := 0;
      while i < |chunks| && chunks[i] != []
        invariant 0 <= i <= |chunks|
        invariant View() == old(View()).(buf := recvbuf)
        invariant recvbuf + Readable(chunks[i..]) == old(recvbuf) + Readable(chunks)
      {
        assert chunks[i..][1..] == chunks[i + 1..];
        Assoc(recvbuf, chunks[i], Readable(chunks[i + 1..]));
        recvbuf := recvbuf + chunks[i];
        i := i + 1;
      }
      assert recvbuf + [] == recvbuf;
      while true
        invariant CutAll(View()) == Receive(old(View()), Readable(chunks))
        decreases |recvbuf|, if head.Some? then 1 else 0
      {
        if head.None? {
          if |recvbuf| < FRAME_HEAD { break; }
          head := Some(ReadHead(recvbuf[..FRAME_HEAD]));
          recvbuf := recvbuf[FRAME_HEAD..];
        } else {
          var h := head.value;
          if |recvbuf| < h.len { break; }
          head := None;
          if h.len < 0 {
            assert recvbuf[..0] == [] && recvbuf[0..] == recvbuf;
            got := got + [h.(data := [])];
          } else {
            got := got + [h.(data := recvbuf[..h.len])];
            recvbuf := recvbuf[h.len..];
          }
        }
      }
    }
  }

  /** What is read before the end of the stream. */
  function Readable(chunks: seq<seq<byte>>): (b: seq<byte>) {
    if chunks == [] || chunks[0] == [] then [] else chunks[0] + Readable(chunks[1..])
  }

  // ------------------------------------------------------------------- the C side

  /** A socket with the bytes that are still to be read from it. */
  class Socket {
    var incoming: seq<byte>

    constructor (b: seq<byte>) ensures incoming == b { incoming := b; }

    /** recv(): between one and `len` of the bytes that are there, as the system pleases. */
    method Recv(len: nat, wish: int) returns (ret: int, b: seq<byte>)
      modifies this
      ensures ret <= 0 ==> incoming == old(incoming) && b == []
      ensures ret > 0 ==> ret == |b| <= len && old(incoming) == b + incoming
    {
      ret := if wish > len then len else wish;
      if ret > |incoming| { ret := |incoming|; }
      if ret <= 0 { return ret, []; }
      b := incoming[..ret];
      incoming := incoming[ret..];
    }

    /** ngcs_recvall; `wishes` says what the system gives each time, and after those it
        times out. */
    method RecvAll(len: int, wishes: seq<int>) returns (failed: bool, b: seq<byte>)
      modifies this
      ensures old(incoming) == b + incoming
      ensures !failed ==> |b| == if len < 0 then 0 else len
    {
      b := [];
      var left, i := len, 0;
      while left > 0
        invariant old(incoming) == b + incoming
        invariant left >= 0 ==> |b| + left == len
        invariant left < 0 ==> left == len && b == []
        decreases left
      {
        var wish := if i < |wishes| then wishes[i] else -1;
        var ret, got := Recv(left, wish);
        if ret <= 0 { return true, b; }
        Assoc(b, got, incoming);
        b := b + got;
        left := left - ret;
        i := i + 1;
      }
      return false, b;
    }

    /** ngcs_recvmsg: when it succeeds it has taken exactly one framed message off the
        stream, and that message is what it returns. */
    method RecvMsg(heads: seq<int>, bodies: seq<int>) returns (failed: bool, m: Msg)
      modifies this
      ensures !failed ==> Proper(m) && old(incoming) == Frame(m) + incoming
    {
      m := Msg(0, 0, 0, []);
      var b: seq<byte>;
      failed, b := RecvAll(FRAME_HEAD, heads);
      if failed { return true, m; }
      m := ReadHead(b);
      HeadOfRead(b);
      ghost var rest := incoming;
      if m.len < 0 {
        assert Frame(m) == Head(m);
        return false, m;
      }
      var body: seq<byte>;
      failed, body := RecvAll(m.len, bodies);
      if failed { return true, m; }
      assert Head(m) == Head(m.(data := body));
      Assoc(Head(m), body, incoming);
      m := m.(data := body);
    }
  }

  /** So from a stream that begins with framed messages it gets the first of them, and
      leaves the stream at the second. */
  lemma RecvTakesFirst(stream: seq<byte>, m: Msg, rest: seq<byte>, ms: seq<Msg>)
    requires Proper(m) && AllProper(ms) && stream == Frame(m) + rest && Prefix(stream, Frames(ms))
    ensures ms != [] && m == ms[0] && Prefix(rest, Frames(ms[1..]))
  {
    SameFirst(m, rest, ms[0], Frames(ms[1..]));
  }
}
