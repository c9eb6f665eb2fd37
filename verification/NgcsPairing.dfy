/**
  Requests and responses on channel 0.  The server answers each request exactly once,
  whatever its command handlers do; the client keeps its callbacks in a queue, and so
  each response reaches the callback of its own request.
 */
module NgcsPairing {
  import opened Basics
  import opened NgcsWire
  import opened NgcsCodec
  import Client = NgcsPython

  /** A response message on channel 0. */
  type Resp = Raw

  /** A registered command: its name, if it stands for one name only, and the responses its
      handler tries to send for the request at hand. */
  datatype Cmd = Cmd(name: Option<seq<byte>>, replies: seq<Resp>)

  function Ascii(s: string): (b: seq<byte>)
    requires forall i | 0 <= i < |s| :: s[i] < 128 as char
  {
    seq(|s|, i requires 0 <= i < |s| => s[i] as int)
  }

  function Error(s: string): (r: Resp)
    requires forall i | 0 <= i < |s| :: s[i] < 128 as char
  {
    Raw(TYPE_ERROR, Ascii(s))
  }

  /** A C string: the bytes up to the terminator. */
  function Text(b: seq<byte>): (s: seq<byte>) {
    if b == [] || b[0] == 0 then [] else [b[0]] + Text(b[1..])
  }

  // --------------------------------------------------------------------- the server

  /** The command word of a well-formed request. */
  function Word(r: Raw): (w: Option<seq<byte>>) {
    if r.typ != TYPE_STRUCT || r.data == [] then None
    else
      var argv := Unpacked(r.data);
      if argv.None? || argv.value == [] || argv.value[0].typ != TYPE_STRING || !argv.value[0].d.Mem? then None
      else Some(Text(argv.value[0].d.bytes))
  }

  /** The first command of that name. */
  function Named(cmds: seq<Cmd>, word: seq<byte>, i: nat): (k: nat)
    requires i <= |cmds|
    ensures i <= k <= |cmds|
    ensures forall j | i <= j < k :: cmds[j].name != Some(word)
    ensures k < |cmds| ==> cmds[k].name == Some(word)
    decreases |cmds| - i
  {
    if i == |cmds| || cmds[i].name == Some(word) then i else Named(cmds, word, i + 1)
  }

  /** The first nameless command that responds. */
  function Catch(cmds: seq<Cmd>, i: nat): (k: nat)
    requires i <= |cmds|
    ensures i <= k <= |cmds|
    ensures forall j | i <= j < k :: cmds[j].name.Some? || cmds[j].replies == []
    ensures k < |cmds| ==> cmds[k].name.None? && cmds[k].replies != []
    decreases |cmds| - i
  {
    if i == |cmds| || (cmds[i].name.None? && cmds[i].replies != []) then i else Catch(cmds, i + 1)
  }

  /** The one response a request gets. */
  function Answer(r: Raw, cmds: seq<Cmd>): (a: Resp) {
    var word := Word(r);
    if word.None? then Error("BAD_REQUEST")
    else
      var k := Named(cmds, word.value, 0);
      if k < |cmds| then
        if cmds[k].replies == [] then Raw(TYPE_NULL, []) else cmds[k].replies[0]
      else
        var c := Catch(cmds, 0);
        if c < |cmds| then cmds[c].replies[0] else Error("COMMAND_NOT_FOUND")
  }

  // ---------------------------------------------------------- who answers, written out

  /** A request whose word is registered is answered by the first command of that name, with
      its first response or, if it is silent, with null; whatever nameless commands there are. */
  lemma OwnNameAnswers(r: Raw, cmds: seq<Cmd>, word: seq<byte>, k: nat)
    requires Word(r) == Some(word) && k < |cmds| && cmds[k].name == Some(word)
    requires forall j | 0 <= j < k :: cmds[j].name != Some(word)
    ensures Answer(r, cmds) == if cmds[k].replies == [] then Raw(0, []) else cmds[k].replies[0]
  {
  }

  /** One whose word is not registered, by the first nameless command that responds; and if
      there is none, by an error. */
  lemma NamelessAnswers(r: Raw, cmds: seq<Cmd>, word: seq<byte>)
    requires Word(r) == Some(word) && forall j | 0 <= j < |cmds| :: cmds[j].name != Some(word)
    ensures forall k | 0 <= k < |cmds| && cmds[k].name.None? && cmds[k].replies != [] &&
                       (forall j | 0 <= j < k :: cmds[j].name.Some? || cmds[j].replies == []) ::
              Answer(r, cmds) == cmds[k].replies[0]
    ensures (forall j | 0 <= j < |cmds| :: cmds[j].name.Some? || cmds[j].replies == []) ==>
              Answer(r, cmds) == Raw(8, Ascii("COMMAND_NOT_FOUND"))
  {
  }

  /** Anything that is not a structure whose first item is a string is a bad request. */
  lemma BadRequests(r: Raw, cmds: seq<Cmd>)
    requires r.typ != 6 || r.data == [] || Unpacked(r.data).None? || Unpacked(r.data).value == [] ||
             Unpacked(r.data).value[0].typ != 2
    ensures Answer(r, cmds) == Raw(8, Ascii("BAD_REQUEST"))
  {
  }

  lemma {:induction false} TextOf(s: seq<byte>)
    requires 0 !in s
    ensures Text(s + [0]) == s
    decreases |s|
  {
    if s != [] {
      assert (s + [0])[1..] == s[1..] + [0];
      TextOf(s[1..]);
    }
  }

  /** What the client packs of a tuple that has a string in front, and no raw data objects,
      names the command of that string. */
  lemma {:induction false} ClientNamesItsCommand(items: seq<Client.Py>, s: seq<byte>)
    requires items != [] && items[0] == Client.PStr(s) && 0 !in s && Client.PackItems(items).Returns?
    requires forall i | 0 <= i < |items| :: !items[i].PData?
    ensures Word(Raw(TYPE_STRUCT, Client.PackItems(items).value)) == Some(s)
  {
    Client.PackedTupleParses(items);
    var b := Client.PackItems(items).value;
    var rs := Parse(b).value;
    forall i | 0 <= i < |rs| ensures UnpackOne(rs[i]).Some? {
      assert Client.Pack(items[i]) == Client.Returns(rs[i]);
    }
    AllDecode(rs);
    assert Client.Pack(items[0]) == Client.Returns(rs[0]) && rs[0] == Raw(TYPE_STRING, s);
    TextOf(s);
  }

  lemma {:induction false} AllDecode(rs: seq<Raw>)
    requires AllFit(rs) && forall i | 0 <= i < |rs| :: UnpackOne(rs[i]).Some?
    ensures Decode(rs).Some?
    decreases |rs|
  {
    if rs != [] { AllDecode(rs[1..]); }
  }

  /** The server's end of channel 0, with all it has sent there. */
  class Channel0 {
    var out: seq<Resp>

    constructor () ensures out == [] { out := []; }

    method ChanSend(r: Resp)
      modifies this
      ensures out == old(out) + [r]
    {
      out := out + [r];
    }

    /** ngcs_send_response: only the first response of a request goes out. */
    method SendResponse(r: Resp, sent: bool) returns (flag: bool)
      modifies this
      ensures flag
      ensures out == if sent then old(out) else old(out) + [r]
    {
      if sent { return true; }
      ChanSend(r);
      return true;
    }

    /** A handler at work: it may respond as often as it likes. */
    method RunHandler(replies: seq<Resp>, sent: bool) returns (flag: bool)
      modifies this
      ensures flag == (sent || replies != [])
      ensures out == if sent || replies == [] then old(out) else old(out) + [replies[0]]
    {
      flag := sent;
      var i := 0;
      while i < |replies|
        invariant 0 <= i <= |replies|
        invariant flag == (sent || i > 0)
        invariant out == if sent || i == 0 then old(out) else old(out) + [replies[0]]
      {
        flag := SendResponse(replies[i], flag);
        i := i + 1;
      }
    }

    /** handle_chan0 for a data message: exactly one response, for every registered set of
        commands and every behaviour of their handlers. */
    method HandleChan0(r: Raw, cmds: seq<Cmd>)
      modifies this
      ensures out == old(out) + [Answer(r, cmds)]
    {
      if r.typ != TYPE_STRUCT || |r.data| == 0 {
        ChanSend(Error("BAD_REQUEST"));
        return;
      }
      var argv := Unpacked(r.data);
      if argv.None? || |argv.value| <= 0 || argv.value[0].typ != TYPE_STRING || !argv.value[0].d.Mem? {
        ChanSend(Error("BAD_REQUEST"));
        return;
      }
      var word := Text(argv.value[0].d.bytes);
      assert Word(r) == Some(word);
      var done := RunNamed(cmds, word);
      if done { return; }
      done := RunNameless(cmds);
      if !done { ChanSend(Error("COMMAND_NOT_FOUND")); }
    }

    /** The first loop: the command of that name, answered for it if it does not respond. */
    method RunNamed(cmds: seq<Cmd>, word: seq<byte>) returns (done: bool)
      modifies this
      ensures var k := Named(cmds, word, 0);
              && done == (k < |cmds|)
              && out == if !done then old(out)
                        else old(out) + [if cmds[k].replies == [] then Raw(TYPE_NULL, []) else cmds[k].replies[0]]
    {
      var i := 0;
      while i < |cmds|
        invariant 0 <= i <= |cmds| && out == old(out)
        invariant Named(cmds, word, 0) == Named(cmds, word, i)
      {
        if cmds[i].name.Some? && cmds[i].name.value == word {
          var sent := RunHandler(cmds[i].replies, false);
          if !sent { ChanSend(Raw(TYPE_NULL, [])); }
          return true;
        }
        i := i + 1;
      }
      return false;
    }

    /** The second loop: nameless commands in turn, until one of them responds. */
    method RunNameless(cmds: seq<Cmd>) returns (sent: bool)
      modifies this
      ensures var c := Catch(cmds, 0);
              && sent == (c < |cmds|)
              && out == if !sent then old(out) else old(out) + [cmds[c].replies[0]]
    {
      sent := false;
      var i := 0;
      while i < |cmds|
        invariant 0 <= i <= |cmds| && out == old(out) && !sent
        invariant Catch(cmds, 0) == Catch(cmds, i)
      {
        if cmds[i].name.None? {
          sent := RunHandler(cmds[i].replies, sent);
          if sent { return true; }
        }
        i := i + 1;
      }
    }
  }

  // ------------------------------------------------------------------ both together

  type Callback = nat

  /** A session.  `asked` are the requests with the callbacks registered for them; the
      server has read the first `served` of them and sent `answers`; the client has read
      the first `heard` of those.  `pending` is its queue of callbacks, `calls` what they
      were called with, and `stray` counts responses nobody was waiting for; `tables` are
      the commands, and their handlers' behaviour, each request was served with.  Both
      directions deliver in order (`NgcsStream.DispatchedInOrder`). */
  datatype Session = Session(
    asked: seq<(Raw, Callback)>, served: nat, answers: seq<Resp>, heard: nat,
    pending: seq<Callback>, calls: seq<(Callback, Resp)>, stray: nat, tables: seq<seq<Cmd>>)

  datatype Step = Ask(r: Raw, cb: Callback) | Serve(cmds: seq<Cmd>) | Hear

  predicate Can(s: Session, st: Step) {
    match st
    case Ask(_, _) => true
    case Serve(_) => s.served < |s.asked|
    case Hear => s.heard < |s.answers|
  }

  function Next(s: Session, st: Step): (t: Session)
    requires Can(s, st)
  {
    match st
    case Ask(r, cb) => s.(pending := s.pending + [cb], asked := s.asked + [(r, cb)])
    case Serve(cmds) =>
      s.(served := s.served + 1, tables := s.tables + [cmds],
         answers := s.answers + [Answer(s.asked[s.served].0, cmds)])
    case Hear =>
      if s.pending == [] then s.(heard := s.heard + 1, stray := s.stray + 1)
      else s.(heard := s.heard + 1, pending := s.pending[1..],
              calls := s.calls + [(s.pending[0], s.answers[s.heard])])
  }

  /** Answers line up with requests, calls with answers, and the queue with the rest. */
  predicate Paired(s: Session) {
    && s.served == |s.answers| <= |s.asked| && s.heard == |s.calls| <= |s.answers| && s.stray == 0
    && |s.pending| == |s.asked| - s.heard && |s.tables| == |s.answers|
    && Answered(s.answers, s.asked, s.tables) && Queued(s.pending, s.asked, s.heard) && Called(s.calls, s.asked, s.answers)
  }

  predicate Answered(answers: seq<Resp>, asked: seq<(Raw, Callback)>, tables: seq<seq<Cmd>>) {
    |answers| <= |asked| && |answers| <= |tables| &&
    forall i | 0 <= i < |answers| :: answers[i] == Answer(asked[i].0, tables[i])
  }

  predicate Queued(pending: seq<Callback>, asked: seq<(Raw, Callback)>, heard: nat) {
    heard + |pending| <= |asked| && forall i | 0 <= i < |pending| :: pending[i] == asked[heard + i].1
  }

  predicate Called(calls: seq<(Callback, Resp)>, asked: seq<(Raw, Callback)>, answers: seq<Resp>) {
    |calls| <= |asked| && |calls| <= |answers| &&
    forall i | 0 <= i < |calls| :: calls[i] == (asked[i].1, answers[i])
  }

  lemma AskKeepsPaired(s: Session, r: Raw, cb: Callback)
    requires Paired(s)
    ensures Paired(Next(s, Ask(r, cb)))
  {
    var t := Next(s, Ask(r, cb));
    assert forall i | 0 <= i < |s.asked| :: t.asked[i] == s.asked[i];
    assert Answered(t.answers, t.asked, t.tables) && Queued(t.pending, t.asked, t.heard) && Called(t.calls, t.asked, t.answers);
  }

  lemma ServeKeepsPaired(s: Session, cmds: seq<Cmd>)
    requires Paired(s) && Can(s, Serve(cmds))
    ensures Paired(Next(s, Serve(cmds)))
  {
    var t := Next(s, Serve(cmds));
    assert Answered(t.answers, t.asked, t.tables) && Called(t.calls, t.asked, t.answers);
  }

  lemma HearKeepsPaired(s: Session)
    requires Paired(s) && Can(s, Hear)
    ensures Paired(Next(s, Hear))
  {
    var t := Next(s, Hear);
    assert s.pending[0] == s.asked[s.heard + 0].1;
    assert Queued(t.pending, t.asked, t.heard) by {
      forall i | 0 <= i < |t.pending| ensures t.pending[i] == t.asked[t.heard + i].1 {
        assert t.pending[i] == s.pending[i + 1] == s.asked[s.heard + (i + 1)].1;
      }
    }
  }

  lemma NextKeepsPaired(s: Session, st: Step)
    requires Paired(s) && Can(s, st)
    ensures Paired(Next(s, st))
  {
    match st
    case Ask(r, cb) => AskKeepsPaired(s, r, cb);
    case Serve(cmds) => ServeKeepsPaired(s, cmds);
    case Hear => HearKeepsPaired(s);
  }

  const NewSession := Session([], 0, [], 0, [], [], 0, [])

  predicate Run(ss: seq<Session>, steps: seq<Step>) {
    && |ss| == |steps| + 1 && ss[0] == NewSession
    && forall i | 0 <= i < |steps| :: Can(ss[i], steps[i]) && ss[i + 1] == Next(ss[i], steps[i])
  }

  /** In every run: each call went to the callback of the request of the same number, with
      the answer to that request, and no response ever came unexpected. */
  lemma {:induction false} EachCallbackGetsItsAnswer(ss: seq<Session>, steps: seq<Step>, i: nat, k: nat)
    requires Run(ss, steps) && i <= |steps| && k < |ss[i].calls|
    ensures k < |ss[i].asked| && k < |ss[i].tables|
    ensures ss[i].calls[k] == (ss[i].asked[k].1, Answer(ss[i].asked[k].0, ss[i].tables[k]))
    ensures ss[i].stray == 0
  {
    RunPaired(ss, steps, i);
    assert Called(ss[i].calls, ss[i].asked, ss[i].answers) && Answered(ss[i].answers, ss[i].asked, ss[i].tables);
  }

  lemma {:induction false} RunPaired(ss: seq<Session>, steps: seq<Step>, i: nat)
    requires Run(ss, steps) && i <= |steps|
    ensures Paired(ss[i])
  {
    if i > 0 {
      RunPaired(ss, steps, i - 1);
      assert Can(ss[i - 1], steps[i - 1]);
      NextKeepsPaired(ss[i - 1], steps[i - 1]);
    }
  }

  // ------------------------------------------------------------ counted by the steps

  function Requests(steps: seq<Step>, i: nat): (r: seq<(Raw, Callback)>)
    requires i <= |steps|
  {
    if i == 0 then []
    else Requests(steps, i - 1) + if steps[i - 1].Ask? then [(steps[i - 1].r, steps[i - 1].cb)] else []
  }

  function Tables(steps: seq<Step>, i: nat): (r: seq<seq<Cmd>>)
    requires i <= |steps|
  {
    if i == 0 then [] else Tables(steps, i - 1) + if steps[i - 1].Serve? then [steps[i - 1].cmds] else []
  }

  function Hearings(steps: seq<Step>, i: nat): (n: nat)
    requires i <= |steps|
  {
    if i == 0 then 0 else Hearings(steps, i - 1) + if steps[i - 1].Hear? then 1 else 0
  }

  lemma {:induction false} RunCounts(ss: seq<Session>, steps: seq<Step>, i: nat)
    requires Run(ss, steps) && i <= |steps|
    ensures ss[i].asked == Requests(steps, i) && ss[i].tables == Tables(steps, i) && ss[i].heard == Hearings(steps, i)
  {
    if i > 0 {
      RunCounts(ss, steps, i - 1);
      assert Can(ss[i - 1], steps[i - 1]);
    }
  }

  /** In every run: as many callbacks were called as responses were heard, and the one of a
      number is that of the request of that number, with what the server answers to this
      request with the commands it had then. */
  lemma CalledByTheSteps(ss: seq<Session>, steps: seq<Step>, i: nat)
    requires Run(ss, steps) && i <= |steps|
    ensures var rs, ts := Requests(steps, i), Tables(steps, i);
            && |ss[i].calls| == Hearings(steps, i) <= |ts| <= |rs|
            && forall k | 0 <= k < |ss[i].calls| :: ss[i].calls[k] == (rs[k].1, Answer(rs[k].0, ts[k]))
  {
    RunCounts(ss, steps, i);
    RunPaired(ss, steps, i);
    forall k | 0 <= k < |ss[i].calls|
      ensures ss[i].calls[k] == (ss[i].asked[k].1, Answer(ss[i].asked[k].0, ss[i].tables[k]))
    {
      EachCallbackGetsItsAnswer(ss, steps, i, k);
    }
  }
}
