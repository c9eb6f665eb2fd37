/**
  The buffer that collects what a service process prints: read in steps of a hundred
  characters, handed on as it comes in, and cut back when it grows too long.
 */
module OutputBuffer {

  import opened Basics

  const STEP := 100
  const LIMIT := 10000
  const KEEP := 9000
  const SPARE := 500

  /** What one read from the pipe gives: some characters, the end of the output, or a failure.
      `errno` is cleared before each read, and only a failure sets it. */
  datatype Read = Data(text: string) | Eof | Failed(errno: int)

  const EINTR := 4

  function Ret(r: Read): (n: int) {
    match r
    case Data(text) => |text|
    case Eof => 0
    case Failed(_) => -1
  }

  function Errno(r: Read): (n: int) { if r.Failed? then r.errno else 0 }

  /** A read is asked for a hundred characters, and gives at least one if it gives any. */
  predicate Possible(r: Read) { r.Data? ==> 0 < |r.text| <= STEP }

  /** The loop reads again: it is not left at once, and its condition holds. */
  predicate Again(r: Read) { !(Ret(r) <= 0) && (Ret(r) >= STEP || Errno(r) == EINTR) }

  /** Among the answers the system will give there is one that ends the loop. */
  predicate Ends(rs: seq<Read>) { exists i | 0 <= i < |rs| :: !Again(rs[i]) }

  /** How many reads the loop makes. */
  function Reads(rs: seq<Read>): (n: nat)
    requires Ends(rs)
    ensures 0 < n <= |rs| && !Again(rs[n - 1]) && forall i | 0 <= i < n - 1 :: Again(rs[i])
  {
    if !Again(rs[0]) then 1
    else
      assert Ends(rs[1..]) by { var i :| 0 <= i < |rs| && !Again(rs[i]); assert rs[1..][i - 1] == rs[i]; }
      var n := Reads(rs[1..]);
      assert forall i | 0 < i < n :: rs[i] == rs[1..][i - 1];
      1 + n
  }

  /** What the reads of one call give: full steps, and then one that is not. */
  predicate Turn(rs: seq<Read>) {
    && rs != []
    && (forall i | 0 <= i < |rs| :: Possible(rs[i]))
    && (forall i | 0 <= i < |rs| - 1 :: rs[i].Data? && |rs[i].text| == STEP)
    && !(rs[|rs| - 1].Data? && |rs[|rs| - 1].text| == STEP)
  }

  /** For all answers of the system: the reads of a call are a turn.  So no read follows one
      that gave nothing, and an interrupted read is not made again: the loop is left before
      the half of its condition that asks for EINTR is ever decisive. */
  lemma {:induction false} ReadsAreATurn(rs: seq<Read>)
    requires Ends(rs) && forall i | 0 <= i < |rs| :: Possible(rs[i])
    ensures Turn(rs[..Reads(rs)])
    ensures forall i | 0 <= i < Reads(rs) - 1 :: Ret(rs[i]) > 0
    ensures forall r <- rs :: Again(r) <==> Ret(r) >= STEP
  {
    var n := Reads(rs);
    forall i | 0 <= i < n - 1 ensures rs[..n][i] == rs[i] && rs[i].Data? && |rs[i].text| == STEP {
      FullStep(rs[i]);
    }
    FullStep(rs[n - 1]);
    forall r <- rs ensures Again(r) <==> Ret(r) >= STEP { FullStep(r); }
  }

  lemma FullStep(r: Read)
    requires Possible(r)
    ensures Again(r) <==> Ret(r) >= STEP
    ensures Again(r) <==> r.Data? && |r.text| == STEP
  {
  }

  function Text(rs: seq<Read>): (t: string) {
    if rs == [] then [] else (if rs[0].Data? then rs[0].text else []) + Text(rs[1..])
  }

  /** The value of a pipe's buffer; `room` is what is allocated, without the terminator. */
  datatype P = P(content: string, room: nat, live: bool, open: bool)

  predicate Sound(p: P) {
    && |p.content| <= p.room
    && (!p.live ==> p.content == [] && p.room == 0)
  }

  /** Room for one more step. */
  function Grown(p: P): (r: P) {
    if |p.content| + STEP >= p.room then p.(room := p.room + STEP, live := true) else p
  }

  function ReadOn(p: P, rs: seq<Read>): (r: P)
    decreases |rs|
  {
    if rs == [] then p
    else
      var g := Grown(p);
      ReadOn(if rs[0].Data? then g.(content := g.content + rs[0].text) else g, rs[1..])
  }

  function FreedIfEmpty(p: P): (r: P) {
    if p.content == [] then p.(room := 0, live := false) else p
  }

  function Closed(p: P): (r: P) {
    if p.live && p.room > |p.content| + 1 then p.(open := false, room := |p.content|)
    else p.(open := false)
  }

  function CutBack(p: P): (r: P) {
    if |p.content| > LIMIT then p.(content := p.content[|p.content| - KEEP..], room := KEEP + SPARE) else p
  }

  /** What follows the reading. */
  function Finished(p: P, eof: bool): (r: P) {
    if eof then Closed(FreedIfEmpty(p)) else CutBack(FreedIfEmpty(p))
  }

  /** initng_io_process_read_input: the new buffer, and the texts handed to the modules. */
  function Input(p: P, rs: seq<Read>): (r: (P, seq<string>))
    requires Turn(rs)
  {
    if !p.open then (p, [])
    else
      var p1 := ReadOn(p, rs);
      (Finished(p1, rs[|rs| - 1].Eof?), NewText(p, p1))
  }

  // ------------------------------------------------------------------------ one call

  lemma {:induction false} ReadOnAppends(p: P, rs: seq<Read>)
    requires Sound(p) && forall i | 0 <= i < |rs| :: rs[i].Data? ==> |rs[i].text| <= STEP
    ensures var r := ReadOn(p, rs);
            r.content == p.content + Text(rs) && Sound(r) && r.open == p.open && (rs != [] ==> r.live)
    decreases |rs|
  {
    if rs == [] {
      assert p.content + [] == p.content;
    } else {
      var g := Grown(p);
      var t: string := if rs[0].Data? then rs[0].text else [];
      assert t == [] ==> g.content + t == g.content;
      ReadOnAppends(g.(content := g.content + t), rs[1..]);
      Assoc(p.content, t, Text(rs[1..]));
    }
  }

  lemma ReadOnStep(p: P, rs: seq<Read>, i: nat)
    requires i < |rs|
    ensures var g := Grown(p);
            ReadOn(p, rs[i..]) == ReadOn(if rs[i].Data? then g.(content := g.content + rs[i].text) else g, rs[i + 1..])
  {
    assert rs[i..][1..] == rs[i + 1..];
  }

  /** How much is kept of a text of this length. */
  function Kept(n: nat, eof: bool): (r: nat) { if !eof && n > LIMIT then KEEP else n }

  /** In numbers: ten thousand characters are kept, one more leaves the last nine thousand, and
      at the end of the output nothing is cut. */
  lemma KeptInNumbers(n: nat)
    ensures Kept(n, true) == n
    ensures n <= 10000 ==> Kept(n, false) == n
    ensures n > 10000 ==> Kept(n, false) == 9000
  {
  }

  /** What a call makes of the buffer: the new one, and what it hands on. */
  predicate KeepsEnd(p: P, rs: seq<Read>, r: P, delivered: seq<string>)
    requires rs != []
  {
    var all := p.content + Text(rs);
    && delivered == (if Text(rs) == [] then [] else [Text(rs)])
    && r.content == all[|all| - Kept(|all|, rs[|rs| - 1].Eof?)..]
    && r.open == !rs[|rs| - 1].Eof?
    && Sound(r)
  }

  lemma FinishedKeeps(p: P, eof: bool)
    requires Sound(p) && p.open
    ensures var r := Finished(p, eof);
            r.content == p.content[|p.content| - Kept(|p.content|, eof)..] && r.open == !eof && Sound(r)
  {
    assert p.content[0..] == p.content;
  }

  /** One call hands on what it read, keeps the end of what there was, and closes at the end
      of the output. */
  lemma InputKeepsEnd(p: P, rs: seq<Read>)
    requires Turn(rs) && Sound(p) && p.open
    ensures KeepsEnd(p, rs, Input(p, rs).0, Input(p, rs).1)
  {
    ReadOnAppends(p, rs);
    KeepsFrom(p, rs, ReadOn(p, rs));
  }

  function NewText(p: P, p1: P): (ts: seq<string>) {
    if |p1.content| > |p.content| then [p1.content[|p.content|..]] else []
  }

  lemma KeepsFrom(p: P, rs: seq<Read>, p1: P)
    requires rs != [] && p1.content == p.content + Text(rs) && Sound(p1) && p1.open
    ensures KeepsEnd(p, rs, Finished(p1, rs[|rs| - 1].Eof?), NewText(p, p1))
  {
    FinishedKeeps(p1, rs[|rs| - 1].Eof?);
    assert (p.content + Text(rs))[|p.content|..] == Text(rs);
  }

  /** Little is allocated beyond the content: nothing for no content, and no more than the
      terminator's place once the pipe is closed. */
  predicate Lean(p: P) {
    && (p.live <==> p.content != []) && (p.content == [] ==> p.room == 0)
    && p.room <= |p.content| + if p.open then 500 else 1
  }

  lemma {:induction false} ReadOnRoom(p: P, rs: seq<Read>)
    requires p.room <= |p.content| + 500
    ensures ReadOn(p, rs).room <= |ReadOn(p, rs).content| + 500
    decreases |rs|
  {
    if rs != [] {
      var g := Grown(p);
      ReadOnRoom(if rs[0].Data? then g.(content := g.content + rs[0].text) else g, rs[1..]);
    }
  }

  /** Every call leaves it so; and after a cut there is room for five hundred more. */
  lemma InputStaysLean(p: P, rs: seq<Read>)
    requires Turn(rs) && Sound(p) && Lean(p)
    ensures Lean(Input(p, rs).0)
    ensures p.open && !rs[|rs| - 1].Eof? && |p.content| + |Text(rs)| > 10000 ==> Input(p, rs).0.room == 9500
  {
    if p.open {
      ReadOnAppends(p, rs);
      ReadOnRoom(p, rs);
    }
  }

  // ------------------------------------------------------------------------ every run

  predicate Run(ps: seq<P>, turns: seq<seq<Read>>) {
    && |ps| == |turns| + 1 && ps[0] == P([], 0, false, true)
    && forall i | 0 <= i < |turns| :: Turn(turns[i]) && ps[i + 1] == Input(ps[i], turns[i]).0
  }

  /** Everything read in the first `n` calls; a closed pipe is not read. */
  function Stream(ps: seq<P>, turns: seq<seq<Read>>, n: nat): (t: string)
    requires n <= |turns| <= |ps|
  {
    if n == 0 then [] else Stream(ps, turns, n - 1) + Added(ps[n - 1], turns[n - 1])
  }

  function Delivered(ps: seq<P>, turns: seq<seq<Read>>, n: nat): (t: string)
    requires n <= |turns| <= |ps| && forall i | 0 <= i < n :: Turn(turns[i])
  {
    if n == 0 then [] else Delivered(ps, turns, n - 1) + Joined(Input(ps[n - 1], turns[n - 1]).1)
  }

  function Joined(texts: seq<string>): (t: string) {
    if texts == [] then [] else texts[0] + Joined(texts[1..])
  }

  lemma SuffixOfSuffix(stream: string, content: string, t: string, n: nat)
    requires |content| <= |stream| && content == stream[|stream| - |content|..] && n <= |content + t|
    ensures (content + t)[|content + t| - n..] == (stream + t)[|stream + t| - n..]
  {
    var k := |stream| - |content|;
    assert stream == stream[..k] + content;
    Assoc(stream[..k], content, t);
    assert stream + t == stream[..k] + (content + t);
  }

  /** The content is an end of the stream, of at least KEEP characters if there are as many. */
  predicate EndOf(content: string, stream: string) {
    && |content| <= |stream| && content == stream[|stream| - |content|..]
    && (|content| >= KEEP || content == stream)
  }

  lemma EndOfGrows(content: string, stream: string, t: string, n: nat)
    requires EndOf(content, stream) && n <= |content + t| && (n >= KEEP || n == |content + t|)
    ensures EndOf((content + t)[|content + t| - n..], stream + t)
  {
    SuffixOfSuffix(stream, content, t, n);
    if n < KEEP {
      assert (content + t)[0..] == content + t;
    }
  }

  lemma KeepsEndOf(p: P, rs: seq<Read>, r: P, delivered: seq<string>, stream: string)
    requires rs != [] && KeepsEnd(p, rs, r, delivered) && EndOf(p.content, stream)
    ensures EndOf(r.content, stream + Text(rs)) && Joined(delivered) == Text(rs)
    ensures Sound(r) && (r.open ==> |r.content| <= LIMIT)
  {
    EndOfGrows(p.content, stream, Text(rs), Kept(|p.content + Text(rs)|, rs[|rs| - 1].Eof?));
    JoinedOne(Text(rs));
  }

  /** What a call adds to the stream; a closed pipe is not read. */
  function Added(p: P, rs: seq<Read>): (t: string) { if p.open then Text(rs) else [] }

  lemma CallHolds(p: P, rs: seq<Read>, stream: string)
    requires Turn(rs)
    ensures Sound(p) && EndOf(p.content, stream) ==>
              var (r, delivered) := Input(p, rs);
              && EndOf(r.content, stream + Added(p, rs)) && Joined(delivered) == Added(p, rs)
              && Sound(r) && (r.open ==> |r.content| <= LIMIT)
  {
    if Sound(p) && EndOf(p.content, stream) {
      if p.open {
        InputKeepsEnd(p, rs);
        KeepsEndOf(p, rs, Input(p, rs).0, Input(p, rs).1, stream);
      } else {
        assert stream + [] == stream;
      }
    }
  }

  /** In every run: what the modules were handed is exactly what was read, in order; the
      buffer is an end of it, of at least nine thousand characters when there were as many;
      while the pipe is open it never holds more than ten thousand; it fits, and little is
      allocated beyond it. */
  lemma {:induction false} BufferHoldsTheEnd(ps: seq<P>, turns: seq<seq<Read>>, n: nat)
    requires Run(ps, turns) && n <= |turns|
    ensures Delivered(ps, turns, n) == Stream(ps, turns, n)
    ensures EndOf(ps[n].content, Stream(ps, turns, n))
    ensures Sound(ps[n]) && Lean(ps[n]) && (ps[n].open ==> |ps[n].content| <= LIMIT)
  {
    if n > 0 {
      BufferHoldsTheEnd(ps, turns, n - 1);
      assert Turn(turns[n - 1]) && ps[n] == Input(ps[n - 1], turns[n - 1]).0;
      CallHolds(ps[n - 1], turns[n - 1], Stream(ps, turns, n - 1));
      InputStaysLean(ps[n - 1], turns[n - 1]);
    }
  }

  lemma JoinedOne(t: string)
    ensures Joined([t]) == t
  {
    assert [t][1..] == [] && t + [] == t;
  }

  // ------------------------------------------------------------------------ as it runs

  class Pipe {
    var buffer: array?<char>
    var len: nat
    var room: nat
    var open: bool

    /** A buffer has room for a terminator beyond `room`, and one stands after
        the content. */
    ghost predicate Valid()
      reads this, buffer
    {
      && (buffer == null ==> len == 0 && room == 0)
      && (buffer != null ==> len <= room < buffer.Length && buffer[len] == '\0')
    }

    ghost function View(): (p: P)
      requires Valid()
      reads this, buffer
    {
      P(if buffer == null then [] else buffer[..len], room, buffer != null, open)
    }

    constructor ()
      ensures Valid() && View() == P([], 0, false, true)
    {
      buffer, len, room, open := null, 0, 0, true;
    }

    /** realloc, for a buffer that is to keep its content; the terminator is to be set. */
    method Realloc(size: nat)
      requires (buffer == null ==> len == 0) && (buffer != null ==> len <= buffer.Length) && len < size
      modifies this`buffer
      ensures buffer != null && fresh(buffer) && buffer.Length == size
      ensures buffer[..len] == if old(buffer) == null then [] else old(buffer[..len])
    {
      var b := new char[size];
      if buffer != null {
        forall i | 0 <= i < len { b[i] := buffer[i]; }
        assert b[..len] == buffer[..len];
      }
      buffer := b;
    }

    method MakeRoom()
      requires Valid()
      modifies this
      ensures Valid() && View() == Grown(old(View()))
      ensures buffer != null && len + STEP <= room
      ensures buffer == old(buffer) || fresh(buffer)
    {
      if len + STEP >= room {
        Realloc(room + STEP + 1);
        room := room + STEP;
        ghost var content := buffer[..len];
        buffer[len] := '\0';
        assert buffer[..len] == content;
      }
    }

    /** The characters the read put behind the content, and the terminator after them. */
    method Append(text: string)
      requires Valid() && buffer != null && len + |text| <= room
      modifies this, buffer
      ensures Valid() && buffer == old(buffer)
      ensures View() == old(View()).(content := old(View()).content + text)
    {
      ghost var content := buffer[..len];
      forall i | 0 <= i < |text| { buffer[len + i] := text[i]; }
      len := len + |text|;
      buffer[len] := '\0';
      assert buffer[..len] == content + text;
    }

    /** The reading loop, on the answers the system will give. */
    method ReadAll(rs: seq<Read>) returns (used: nat)
      requires Valid() && Ends(rs) && forall i | 0 <= i < |rs| :: Possible(rs[i])
      modifies this, buffer
      ensures used == Reads(rs)
      ensures Valid() && View() == ReadOn(old(View()), rs[..used])
      ensures buffer == old(buffer) || fresh(buffer)
    {
      used := 0;
      ghost var all := rs[..Reads(rs)];
      assert all[0..] == all;
      while true
        invariant used < Reads(rs) && Valid() && (buffer == old(buffer) || fresh(buffer))
        invariant ReadOn(View(), all[used..]) == ReadOn(old(View()), all)
        decreases |rs| - used
      {
        ReadOnStep(View(), all, used);
        MakeRoom();
        var r := rs[used];
        used := used + 1;
        if Ret(r) <= 0 { break; }
        Append(r.text);
        if !(Ret(r) >= STEP || Errno(r) == EINTR) { break; }
      }
      assert all[used..] == [];
    }

    method Close()
      requires Valid()
      modifies this, buffer
      ensures Valid() && View() == Closed(old(View()))
    {
      open := false;
      if buffer != null && room > len + 1 {
        Realloc(len + 1);
        room := len;
        ghost var content := buffer[..len];
        buffer[len] := '\0';
        assert buffer[..len] == content;
      }
    }

    method Purge()
      requires Valid() && len > LIMIT
      modifies this, buffer
      ensures Valid() && View() == CutBack(old(View()))
    {
      forall i | 0 <= i < KEEP { buffer[i] := buffer[len - KEEP + i]; }
      assert buffer[..KEEP] == old(buffer[..len])[old(len) - KEEP..];
      len := KEEP;
      Realloc(KEEP + SPARE + 1);
      room := KEEP + SPARE;
      ghost var content := buffer[..len];
      buffer[KEEP] := '\0';
      assert buffer[..len] == content;
    }

    method ReadInput(rs: seq<Read>) returns (delivered: seq<string>)
      requires Valid() && Ends(rs) && forall i | 0 <= i < |rs| :: Possible(rs[i])
      modifies this, buffer
      ensures Turn(rs[..Reads(rs)])
      ensures Valid() && (View(), delivered) == Input(old(View()), rs[..Reads(rs)])
    {
      ReadsAreATurn(rs);
      delivered := [];
      if !open { return; }
      var offset := len;
      var used := ReadAll(rs);
      if len > offset { delivered := [buffer[offset..len]]; }
      if len == 0 && buffer != null {
        buffer, room := null, 0;
      }
      if rs[used - 1].Eof? {
        Close();
        return;
      }
      if len > LIMIT { Purge(); }
    }
  }
}
