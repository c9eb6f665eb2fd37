/**
  ngcs_pack and ngcs_unpack of the C side: an array of typed items against the
  packed form of a structure.
 */
module NgcsCodec {
  import opened Basics
  import opened NgcsWire

  type int64 = x: int | -0x8000_0000_0000_0000 <= x < 0x8000_0000_0000_0000

  /** The union of an item: an int, a long, or the bytes it refers to in memory. */
  datatype Union = I(i: int32) | L(l: int64) | Mem(bytes: seq<byte>)

  /** ngcs_data. */
  datatype Data = Data(typ: int32, len: int32, d: Union)

  predicate IsText(typ: int32) {
    typ == TYPE_ERROR || typ == TYPE_STRING
  }

  // ---------------------------------------------------------------------- packing

  const LONG_SIZE := 8

  /** A long assigned to an int. */
  function Low(l: int64): (i: int32)
    ensures -0x8000_0000 <= l < 0x8000_0000 ==> i == l
  {
    (l + 0x8000_0000) % 0x1_0000_0000 - 0x8000_0000
  }

  /** Of the eight bytes of a long ngcs_pack writes four; the others stay as they lie in the
      buffer. */
  type Rest = b: seq<byte> | |b| == 4 witness [0, 0, 0, 0]

  /** Those of an item packed at `at`. */
  function RestAt(b: seq<byte>, at: nat): (r: Rest) {
    if at + HEAD + LONG_SIZE <= |b| then b[at + HEAD + 4..at + HEAD + LONG_SIZE] else [0, 0, 0, 0]
  }

  /** What the caller must supply: the right member of the union, `len` readable bytes,
      and a terminator when the length of a string is left to be found. */
  predicate Readable(d: Data) {
    if d.typ == TYPE_INT then d.d.I?
    else if d.typ == TYPE_LONG then d.d.L?
    else if IsText(d.typ) && d.len < 0 then
      d.d.Mem? && 0 in d.d.bytes && |d.d.bytes| < 0x8000_0000
    else d.d.Mem? && d.len <= |d.d.bytes|
  }

  function StrLen(b: seq<byte>): (n: nat)
    requires 0 in b
    ensures n < |b| && b[n] == 0 && forall i | 0 <= i < n :: b[i] != 0
  {
    if b[0] == 0 then 0
    else
      assert b == [b[0]] + b[1..];
      1 + StrLen(b[1..])
  }

  /** The item with a missing string length filled in, as ngcs_pack leaves it. */
  function Sized(d: Data): (r: Data)
    requires Readable(d)
    ensures Readable(r)
  {
    if IsText(d.typ) && d.len < 0 then d.(len := StrLen(d.d.bytes)) else d
  }

  /** An item of any other type with a negative length makes ngcs_pack give up. */
  predicate Refused(d: Data) {
    d.typ != TYPE_INT && d.typ != TYPE_LONG && !IsText(d.typ) && d.len < 0
  }

  /** Only numbers and strings may have a negative length; of a string it is then found. */
  lemma RefusedIff(d: Data)
    ensures Refused(d) <==> d.len < 0 && d.typ !in {1, 2, 4, 8}
    ensures Readable(d) && d.typ in {2, 8} && d.len < 0 ==>
              0 <= Sized(d).len < |d.d.bytes| && d.d.bytes[Sized(d).len] == 0 && 0 !in d.d.bytes[..Sized(d).len]
    ensures Readable(d) && (d.len >= 0 || d.typ !in {2, 8}) ==> Sized(d) == d
  {
  }

  function RawOf(d: Data, rest: Rest): (r: Raw)
    requires Readable(d) && !Refused(d)
    ensures Fits(r) && |r.data| == Length(d)
  {
    if d.typ == TYPE_INT then Raw(TYPE_INT, EncodeInt(d.d.i))
    else if d.typ == TYPE_LONG then Raw(TYPE_LONG, EncodeInt(Low(d.d.l)) + rest)
    else Raw(d.typ, d.d.bytes[..Sized(d).len])
  }

  /** The length an item is packed with. */
  function Length(d: Data): (n: nat)
    requires Readable(d) && !Refused(d)
  {
    if d.typ == TYPE_INT then 4 else if d.typ == TYPE_LONG then LONG_SIZE else Sized(d).len
  }

  predicate Packable(ds: seq<Data>) {
    forall i | 0 <= i < |ds| :: Readable(ds[i]) && !Refused(ds[i])
  }

  function RawsOf(ds: seq<Data>, rests: seq<Rest>): (rs: seq<Raw>)
    requires Packable(ds) && |rests| == |ds|
    ensures |rs| == |ds| && AllFit(rs)
    ensures forall i | 0 <= i < |ds| :: rs[i] == RawOf(ds[i], rests[i])
  {
    seq(|ds|, i requires 0 <= i < |ds| => RawOf(ds[i], rests[i]))
  }

  function Packed(ds: seq<Data>, rests: seq<Rest>): (b: seq<byte>)
    requires Packable(ds) && |rests| == |ds|
  {
    Render(RawsOf(ds, rests))
  }

  lemma PackedSnoc(ds: seq<Data>, rests: seq<Rest>, n: nat)
    requires n < |ds| == |rests| && Packable(ds[..n]) && Packable(ds[..n + 1]) && Readable(ds[n]) && !Refused(ds[n])
    ensures Packed(ds[..n + 1], rests[..n + 1]) == Packed(ds[..n], rests[..n]) + RenderOne(RawOf(ds[n], rests[n]))
  {
    var a, r := RawsOf(ds[..n], rests[..n]), RawOf(ds[n], rests[n]);
    assert RawsOf(ds[..n + 1], rests[..n + 1]) == a + [r];
    RenderConcat(a, [r]);
    assert Render([r]) == RenderOne(r);
  }

  // -------------------------------------------------------------------- unpacking

  function UnpackOne(r: Raw): (d: Option<Data>)
    requires Fits(r)
  {
    if r.typ == TYPE_INT then
      if |r.data| != 4 then None else Some(Data(r.typ, 4, I(DecodeInt(r.data))))
    else if r.typ == TYPE_LONG then
      if |r.data| != 8 then None else Some(Data(r.typ, 8, I(DecodeInt(r.data[..4]))))
    else if IsText(r.typ) then Some(Data(r.typ, |r.data|, Mem(r.data + [0])))
    else Some(Data(r.typ, |r.data|, Mem(r.data)))
  }

  function Decode(rs: seq<Raw>): (ds: Option<seq<Data>>)
    requires AllFit(rs)
    ensures ds.Some? ==> |ds.value| == |rs| && forall i | 0 <= i < |rs| :: UnpackOne(rs[i]) == Some(ds.value[i])
  {
    if rs == [] then Some([])
    else
      var a, rest := UnpackOne(rs[0]), Decode(rs[1..]);
      if a.None? || rest.None? then None else Some([a.value] + rest.value)
  }

  function Unpacked(b: seq<byte>): (ds: Option<seq<Data>>) {
    var rs := Parse(b);
    if rs.None? then None else Decode(rs.value)
  }

  /** An item as the other side gets it: its length filled in, its text terminated, and of a
      long the low half. */
  function Received(d: Data): (r: Data)
    requires Readable(d) && !Refused(d)
  {
    if d.typ == TYPE_INT then Data(TYPE_INT, 4, d.d)
    else if d.typ == TYPE_LONG then Data(TYPE_LONG, LONG_SIZE, I(Low(d.d.l)))
    else
      var n := Sized(d).len;
      Data(d.typ, n, Mem(if IsText(d.typ) then d.d.bytes[..n] + [0] else d.d.bytes[..n]))
  }

  function ReceivedAll(ds: seq<Data>): (r: seq<Data>)
    requires Packable(ds)
    ensures |r| == |ds| && forall i | 0 <= i < |ds| :: r[i] == Received(ds[i])
  {
    if ds == [] then [] else [Received(ds[0])] + ReceivedAll(ds[1..])
  }

  lemma {:induction false} DecodeReceived(ds: seq<Data>, rests: seq<Rest>)
    requires Packable(ds) && |rests| == |ds|
    ensures Decode(RawsOf(ds, rests)) == Some(ReceivedAll(ds))
    decreases |ds|
  {
    if ds != [] {
      assert RawsOf(ds, rests)[1..] == RawsOf(ds[1..], rests[1..]);
      DecodeReceived(ds[1..], rests[1..]);
      UnpackOneReceived(ds[0], rests[0]);
    }
  }

  lemma UnpackOneReceived(d: Data, rest: Rest)
    requires Readable(d) && !Refused(d)
    ensures UnpackOne(RawOf(d, rest)) == Some(Received(d))
  {
    if d.typ == TYPE_INT {
      DecodeEncode(d.d.i);
    } else if d.typ == TYPE_LONG {
      assert RawOf(d, rest).data[..4] == EncodeInt(Low(d.d.l));
      DecodeEncode(Low(d.d.l));
    }
  }

  /** Unpacking what was packed gives back every item, whatever the unwritten bytes of longs
      and whatever short tail follows. */
  lemma UnpackInvertsPack(ds: seq<Data>, rests: seq<Rest>, tail: seq<byte>)
    requires Packable(ds) && |rests| == |ds| && |tail| < HEAD
    ensures Unpacked(Packed(ds, rests) + tail) == Some(ReceivedAll(ds))
  {
    ParseRender(RawsOf(ds, rests), tail);
    DecodeReceived(ds, rests);
  }

  /** So a long comes back as itself exactly if it is an int. */
  lemma LongComesBackIff(l: int64)
    ensures Received(Data(TYPE_LONG, LONG_SIZE, L(l))).d.i == l <==> -0x8000_0000 <= l < 0x8000_0000
  {
  }

  // ------------------------------------------------------------- packing in place

  /** `s` with `b` written over it at `at`. */
  function Splice(s: seq<byte>, at: nat, b: seq<byte>): (r: seq<byte>)
    requires at + |b| <= |s|
    ensures |r| == |s|
  {
    s[..at] + b + s[at + |b|..]
  }

  lemma SpliceTwice(s: seq<byte>, at: nat, a: seq<byte>, b: seq<byte>)
    requires at + |a| + |b| <= |s|
    ensures Splice(Splice(s, at, a), at + |a|, b) == Splice(s, at, a + b)
  {
  }

  method Put(buf: array<byte>, at: nat, b: seq<byte>)
    requires at + |b| <= buf.Length
    modifies buf
    ensures buf[..] == Splice(old(buf[..]), at, b)
  {
    var i := 0;
    while i < |b|
      invariant 0 <= i <= |b|
      invariant buf[..] == Splice(old(buf[..]), at, b[..i])
    {
      buf[at + i] := b[i];
      i := i + 1;
    }
    assert b[..i] == b;
  }

  /** Bytes that are not written are as good as written with what they hold. */
  lemma SpliceOver(s: seq<byte>, at: nat, a: seq<byte>, b: seq<byte>)
    requires at + |a| + |b| <= |s| && b == s[at + |a|..at + |a| + |b|]
    ensures Splice(s, at, a) == Splice(s, at, a + b)
  {
    assert s[at + |a|..] == b + s[at + |a| + |b|..];
    Assoc(s[..at] + a, b, s[at + |a| + |b|..]);
    Assoc(s[..at], a, b);
  }

  /** One item: its type, its length and its bytes, the cursor moving along. */
  method PutItem(d: Data, buf: array<byte>, at: nat)
    requires Readable(d) && !Refused(d) && Sized(d) == d
    requires at + HEAD + Length(d) <= buf.Length
    modifies buf
    ensures buf[..] == Splice(old(buf[..]), at, RenderOne(RawOf(d, RestAt(old(buf[..]), at))))
  {
    ghost var s := buf[..];
    ghost var r := RawOf(d, RestAt(s, at));
    ghost var head := EncodeInt(r.typ) + EncodeInt(|r.data|);
    Put(buf, at, EncodeInt(d.typ));
    if d.typ == TYPE_INT {
      Put(buf, at + 4, EncodeInt(4));
      Put(buf, at + HEAD, EncodeInt(d.d.i));
    } else if d.typ == TYPE_LONG {
      Put(buf, at + 4, EncodeInt(LONG_SIZE));
      Put(buf, at + HEAD, EncodeInt(Low(d.d.l)));
      PutLong(s, at, head, EncodeInt(Low(d.d.l)));
    } else {
      Put(buf, at + 4, EncodeInt(d.len));
      Put(buf, at + HEAD, d.d.bytes[..d.len]);
    }
    SpliceTwice(s, at, EncodeInt(r.typ), EncodeInt(|r.data|));
    SpliceTwice(s, at, head, r.data);
  }

  lemma PutLong(s: seq<byte>, at: nat, head: seq<byte>, low: seq<byte>)
    requires |head| == HEAD && |low| == 4 && at + HEAD + LONG_SIZE <= |s|
    ensures Splice(Splice(s, at, head), at + HEAD, low) == Splice(Splice(s, at, head), at + HEAD, low + RestAt(s, at))
  {
    SpliceTwice(s, at, head, low);
    SpliceTwice(s, at, head, low + RestAt(s, at));
    SpliceOver(s, at, head + low, RestAt(s, at));
    Assoc(head, low, RestAt(s, at));
  }

  predicate AllReadable(ds: seq<Data>) {
    forall i | 0 <= i < |ds| :: Readable(ds[i])
  }

  /** How much ngcs_pack writes: everything, or what comes before the first refused item
      and that item's type. */
  function Room(ds: seq<Data>): (n: nat)
    requires AllReadable(ds)
  {
    if ds == [] then 0
    else if Refused(ds[0]) then 4
    else HEAD + Length(ds[0]) + Room(ds[1..])
  }

  lemma {:induction false} RoomAfter(ds: seq<Data>, n: nat)
    requires AllReadable(ds) && n <= |ds| && Packable(ds[..n])
    ensures Room(ds) == Room(ds[..n]) + Room(ds[n..])
    decreases |ds|
  {
    if n == 0 {
      assert ds[0..] == ds && ds[..0] == [];
    } else {
      assert ds[..n][0] == ds[0] && ds[..n][1..] == ds[1..][..n - 1] && ds[1..][n - 1..] == ds[n..];
      RoomAfter(ds[1..], n - 1);
    }
  }

  /** The bytes that stay as they are, for items packed from the start of `b`. */
  function RestsIn(b: seq<byte>, ds: seq<Data>): (rests: seq<Rest>)
    requires AllReadable(ds)
    ensures |rests| == |ds|
  {
    seq(|ds|, i requires 0 <= i < |ds| => RestAt(b, Room(ds[..i])))
  }

  /** One turn of the loop in ngcs_pack: the item's packed size, or -1 if it is refused
      after its type has been written. */
  method PackItem(data: array<Data>, n: nat, buf: array?<byte>, at: nat) returns (size: int)
    requires n < data.Length && Readable(data[n])
    requires buf != null ==> at + (if Refused(data[n]) then 4 else HEAD + Length(data[n])) <= buf.Length
    modifies data, buf
    ensures old(Refused(data[n])) ==> size == -1
    ensures !old(Refused(data[n])) ==>
              && size == HEAD + Length(old(data[n]))
              && data[..] == old(data[..])[n := Sized(old(data[n]))]
              && (buf != null ==>
                    buf[..] == Splice(old(buf[..]), at, RenderOne(RawOf(old(data[n]), RestAt(old(buf[..]), at)))))
  {
    if Refused(data[n]) {
      if buf != null { Put(buf, at, EncodeInt(data[n].typ)); }
      return -1;
    }
    data[n] := Sized(data[n]);
    if buf != null { PutItem(data[n], buf, at); }
    return HEAD + Length(data[n]);
  }

  /** ngcs_pack: with no buffer the sizing pass, otherwise the writing pass; both return
      the same number, which is exactly what the writing pass fills. */
  method Pack(data: array<Data>, buf: array?<byte>) returns (ret: int)
    requires AllReadable(data[..])
    requires buf != null ==> Room(data[..]) <= buf.Length
    modifies data, buf
    ensures !Packable(old(data[..])) ==> ret == 1
    ensures Packable(old(data[..])) ==>
              && ret == Room(old(data[..]))
              && (forall i | 0 <= i < data.Length :: data[i] == Sized(old(data[i])))
              && (buf != null ==>
                    ret <= buf.Length &&
                    buf[..] == Packed(old(data[..]), RestsIn(old(buf[..]), old(data[..]))) + old(buf[ret..]))
  {
    ghost var ds, b0 := data[..], if buf != null then buf[..] else [];
    var n, outcnt := 0, 0;
    PackingStart(ds, b0);
    while n < data.Length
      invariant Packing(data[..], ds, n) && outcnt == Room(ds[..n])
      invariant buf != null ==> Written(buf[..], b0, ds, n)
    {
      RoomForNext(ds, n);
      ghost var before, written := data[..], if buf != null then buf[..] else [];
      assert before[n] == data[n] == ds[n];
      var size := PackItem(data, n, buf, outcnt);
      if size == -1 { return 1; }
      PackableStep(ds, n);
      PackingStep(before, data[..], ds, n);
      if buf != null { WrittenStep(written, buf[..], b0, ds, n); }
      outcnt := outcnt + size;
      n := n + 1;
    }
    assert ds[..n] == ds && RestsIn(b0, ds)[..n] == RestsIn(b0, ds);
    return outcnt;
  }

  /** The first `n` items are done: their lengths are filled in, the rest is as it was. */
  ghost predicate Packing(now: seq<Data>, ds: seq<Data>, n: nat) {
    && |now| == |ds| && n <= |ds| && AllReadable(ds) && Packable(ds[..n])
    && (forall i | 0 <= i < n :: now[i] == Sized(ds[i]))
    && (forall i | n <= i < |ds| :: now[i] == ds[i])
  }

  /** They are packed at the front of the buffer. */
  ghost predicate Written(b: seq<byte>, b0: seq<byte>, ds: seq<Data>, n: nat)
    requires AllReadable(ds) && n <= |ds| && Packable(ds[..n])
  {
    var front := Packed(ds[..n], RestsIn(b0, ds)[..n]);
    |front| == Room(ds[..n]) <= |b0| && b == front + b0[|front|..]
  }

  lemma PackingStart(ds: seq<Data>, b0: seq<byte>)
    requires AllReadable(ds)
    ensures Packing(ds, ds, 0) && Room(ds[..0]) == 0 && Written(b0, b0, ds, 0)
  {
    assert ds[..0] == [] && RestsIn(b0, ds)[..0] == [] && RawsOf([], []) == [];
    assert b0[0..] == b0;
  }

  lemma PackableStep(ds: seq<Data>, n: nat)
    requires AllReadable(ds) && n < |ds| && Packable(ds[..n]) && !Refused(ds[n])
    ensures Packable(ds[..n + 1]) && Room(ds[..n + 1]) == Room(ds[..n]) + HEAD + Length(ds[n])
  {
    var t := ds[..n + 1];
    forall i | 0 <= i < |t| ensures Readable(t[i]) && !Refused(t[i]) {
      if i < n { assert t[i] == ds[..n][i]; }
    }
    assert t[..n] == ds[..n] && t[n..] == [ds[n]] && [ds[n]][1..] == [];
    RoomAfter(t, n);
    assert Room([ds[n]]) == HEAD + Length(ds[n]) + Room([]);
  }

  /** What is left of the room takes the next item, or as much of it as is written. */
  lemma RoomForNext(ds: seq<Data>, n: nat)
    requires AllReadable(ds) && n < |ds| && Packable(ds[..n])
    ensures Room(ds[..n]) + (if Refused(ds[n]) then 4 else HEAD + Length(ds[n])) <= Room(ds)
    ensures Refused(ds[n]) ==> !Packable(ds)
  {
    RoomAfter(ds, n);
    assert ds[n..][0] == ds[n];
  }

  lemma PackingStep(before: seq<Data>, after: seq<Data>, ds: seq<Data>, n: nat)
    requires Packing(before, ds, n) && n < |ds| && Packable(ds[..n + 1]) && after == before[n := Sized(ds[n])]
    ensures Packing(after, ds, n + 1)
  {
  }

  lemma WrittenStep(before: seq<byte>, after: seq<byte>, b0: seq<byte>, ds: seq<Data>, n: nat)
    requires AllReadable(ds) && n < |ds| && Packable(ds[..n]) && Packable(ds[..n + 1]) && !Refused(ds[n])
    requires Written(before, b0, ds, n) && Room(ds[..n + 1]) == Room(ds[..n]) + HEAD + Length(ds[n]) <= |b0|
    requires |before| == |b0|
    requires after == Splice(before, Room(ds[..n]), RenderOne(RawOf(ds[n], RestAt(before, Room(ds[..n])))))
    ensures Written(after, b0, ds, n + 1)
  {
    var at, rests := Room(ds[..n]), RestsIn(b0, ds);
    var front := Packed(ds[..n], rests[..n]);
    SameRest(before, front, b0, at);
    PackedSnoc(ds, rests, n);
    SpliceAtEnd(front, b0, RenderOne(RawOf(ds[n], rests[n])));
  }

  lemma SameRest(b: seq<byte>, front: seq<byte>, b0: seq<byte>, at: nat)
    requires at == |front| <= |b0| && b == front + b0[at..]
    ensures RestAt(b, at) == RestAt(b0, at)
  {
  }

  lemma SpliceAtEnd(done: seq<byte>, s: seq<byte>, b: seq<byte>)
    requires |done| + |b| <= |s|
    ensures Splice(done + s[|done|..], |done|, b) == done + b + s[|done| + |b|..]
  {
  }

  // ----------------------------------------------------------- unpacking in place

  /** The counting pass: it steps over lengths without checking that they fit. */
  function Count(b: seq<byte>): (n: Option<nat>)
    decreases |b|
  {
    if |b| < HEAD then Some(0)
    else
      var l := HeadLen(b);
      if l < 0 then None
      else if |b| - HEAD < l then Some(1)
      else
        var rest := Count(b[HEAD + l..]);
        if rest.None? then None else Some(1 + rest.value)
  }

  lemma {:induction false} CountOfParsed(b: seq<byte>)
    ensures Parse(b).Some? ==> Count(b) == Some(|Parse(b).value|)
    ensures Count(b).None? ==> Parse(b).None?
    decreases |b|
  {
    if |b| >= HEAD && 0 <= HeadLen(b) <= |b| - HEAD { CountOfParsed(b[HEAD + HeadLen(b)..]); }
  }

  method CountEntries(data: seq<byte>) returns (cnt: int)
    ensures cnt == -1 <==> Count(data).None?
    ensures cnt != -1 ==> Count(data) == Some(cnt)
  {
    var d, l := 0, |data|;
    cnt := 0;
    while l >= HEAD
      invariant d + l == |data| && cnt >= 0 && d >= 0
      invariant l < 0 ==> Count(data) == Some(cnt)
      invariant l >= 0 ==>
        Count(data) == match Count(data[d..]) case None => None case Some(k) => Some(cnt + k)
      decreases l
    {
      var len := DecodeInt(data[d + 4..d + 8]);
      assert data[d..][4..8] == data[d + 4..d + 8];
      if len < 0 { return -1; }
      if l >= HEAD + len { assert data[d..][HEAD + len..] == data[d + HEAD + len..]; }
      d := d + HEAD + len;
      l := l - (HEAD + len);
      cnt := cnt + 1;
    }
  }

  /** The first entry of a block, and what is left after it. */
  lemma UnpackedCons(b: seq<byte>)
    requires |b| >= HEAD && 0 <= HeadLen(b) <= |b| - HEAD
    ensures var one := UnpackOne(Raw(HeadType(b), b[HEAD..HEAD + HeadLen(b)]));
            var rest := Unpacked(b[HEAD + HeadLen(b)..]);
            Unpacked(b) == if one.None? || rest.None? then None else Some([one.value] + rest.value)
  {
    var rest := Parse(b[HEAD + HeadLen(b)..]);
    if rest.Some? {
      var r := Raw(HeadType(b), b[HEAD..HEAD + HeadLen(b)]);
      assert ([r] + rest.value)[1..] == rest.value;
    }
  }

  /** `done` followed by what `rest` still gives. */
  function Resume(done: seq<Data>, rest: Option<seq<Data>>): (r: Option<seq<Data>>) {
    if rest.None? then None else Some(done + rest.value)
  }

  lemma ResumeStart(b: seq<byte>)
    ensures Resume([], Unpacked(b)) == Unpacked(b)
  {
    if Unpacked(b).Some? { assert [] + Unpacked(b).value == Unpacked(b).value; }
  }

  lemma ResumeEnd(done: seq<Data>, b: seq<byte>)
    requires |b| < HEAD
    ensures Resume(done, Unpacked(b)) == Some(done)
  {
    assert Unpacked(b) == Some([]) && done + [] == done;
  }

  /** One more entry done. */
  lemma ResumeStep(done: seq<Data>, b: seq<byte>, one: Data)
    requires |b| >= HEAD && 0 <= HeadLen(b) <= |b| - HEAD
    requires UnpackOne(Raw(HeadType(b), b[HEAD..HEAD + HeadLen(b)])) == Some(one)
    ensures Resume(done, Unpacked(b)) == Resume(done + [one], Unpacked(b[HEAD + HeadLen(b)..]))
  {
    UnpackedCons(b);
    var rest := Unpacked(b[HEAD + HeadLen(b)..]);
    if rest.Some? { Assoc(done, [one], rest.value); }
  }

  /** The head and the bytes of the entry at `d`, if they are all there. */
  method ReadEntry(data: seq<byte>, d: nat) returns (r: Option<Raw>)
    requires d + HEAD <= |data|
    ensures var b := data[d..];
            if 0 <= HeadLen(b) <= |b| - HEAD
            then r == Some(Raw(HeadType(b), b[HEAD..HEAD + HeadLen(b)])) && Fits(r.value)
            else r == None
  {
    var typ, len := DecodeInt(data[d..d + 4]), DecodeInt(data[d + 4..d + 8]);
    assert data[d..][..4] == data[d..d + 4] && data[d..][4..8] == data[d + 4..d + 8];
    if len < 0 { return None; }
    if |data| - d - HEAD < len { return None; }
    assert data[d..][HEAD..HEAD + len] == data[d + HEAD..d + HEAD + len];
    return Some(Raw(typ, data[d + HEAD..d + HEAD + len]));
  }

  /** Where the second pass stands: `done` are the items so far, the rest starts at `d`. */
  ghost predicate Unpacking(data: seq<byte>, d: nat, done: seq<Data>, room: nat) {
    && d <= |data| && |done| <= room
    && Count(data[d..]) == Some(room - |done|)
    && Unpacked(data) == Resume(done, Unpacked(data[d..]))
  }

  /** The entry at the head of `b`, if it is all there and its bytes are good. */
  function HeadItem(b: seq<byte>): (one: Option<Data>)
    requires |b| >= HEAD
  {
    if 0 <= HeadLen(b) <= |b| - HEAD then UnpackOne(Raw(HeadType(b), b[HEAD..HEAD + HeadLen(b)])) else None
  }

  lemma UnpackingStep(data: seq<byte>, d: nat, done: seq<Data>, room: nat)
    requires d + HEAD <= |data| && Unpacking(data, d, done, room)
    ensures HeadItem(data[d..]).None? ==> Unpacked(data).None?
    ensures HeadItem(data[d..]).Some? ==>
              && |done| < room
              && Unpacking(data, d + HEAD + HeadLen(data[d..]), done + [HeadItem(data[d..]).value], room)
  {
    var b := data[d..];
    if 0 <= HeadLen(b) <= |b| - HEAD {
      UnpackedCons(b);
      assert b[HEAD + HeadLen(b)..] == data[d + HEAD + HeadLen(b)..];
      if HeadItem(b).Some? { ResumeStep(done, b, HeadItem(b).value); }
    }
  }

  /** One turn of the second pass: where the next entry starts, or -1 if this one is bad. */
  method UnpackEntry(data: seq<byte>, d: nat, res: array<Data>, cnt: nat) returns (next: int)
    requires d + HEAD <= |data| && cnt <= res.Length && Unpacking(data, d, res[..cnt], res.Length)
    modifies res
    ensures next == -1 ==> Unpacked(data).None?
    ensures next != -1 ==> next > d && cnt < res.Length && Unpacking(data, next, res[..cnt + 1], res.Length)
  {
    ghost var done := res[..cnt];
    UnpackingStep(data, d, done, res.Length);
    var r := ReadEntry(data, d);
    if r.None? { return -1; }
    var one := UnpackOne(r.value);
    if one.None? { return -1; }
    res[cnt] := one.value;
    assert res[..cnt + 1] == done + [one.value];
    return d + HEAD + |r.value.data|;
  }

  lemma UnpackingStarts(data: seq<byte>, room: nat)
    requires Count(data) == Some(room)
    ensures Unpacking(data, 0, [], room)
  {
    assert data[0..] == data;
    ResumeStart(data);
  }

  lemma UnpackingEnds(data: seq<byte>, d: nat, done: seq<Data>, room: nat)
    requires Unpacking(data, d, done, room) && |data| - d < HEAD
    ensures Unpacked(data) == Some(done)
  {
    ResumeEnd(done, data[d..]);
  }

  /** ngcs_unpack: -1 exactly when the block is no structure or an item in it is bad; else
      the items, never more of them than the counting pass made room for. */
  method Unpack(data: seq<byte>) returns (cnt: int, res: array?<Data>)
    ensures cnt == -1 <==> Unpacked(data).None?
    ensures cnt == -1 ==> res == null
    ensures cnt != -1 ==> res != null && 0 <= cnt <= res.Length && Unpacked(data) == Some(res[..cnt])
  {
    CountOfParsed(data);
    var room := CountEntries(data);
    if room == -1 { return -1, null; }
    var items := new Data[room];
    var d := 0;
    cnt := 0;
    UnpackingStarts(data, room);
    assert items[..0] == [];
    while |data| - d >= HEAD
      invariant 0 <= cnt <= items.Length == room && 0 <= d && Unpacking(data, d, items[..cnt], room)
      decreases |data| - d
    {
      var next := UnpackEntry(data, d, items, cnt);
      if next == -1 { return -1, null; }
      d, cnt := next, cnt + 1;
    }
    UnpackingEnds(data, d, items[..cnt], room);
    res := items;
  }
}
