/**
  ngcs_pack and ngcs_unpack of the Python client: recursive over nested tuples, with
  Python's slices and exceptions.
 */
module NgcsPython {
  import opened Basics
  import opened NgcsWire

  /** The values the client handles; `PData` is an NgcsData object. */
  datatype Py =
    | PNone
    | PInt(i: int)
    | PStr(s: seq<byte>)
    | PTuple(items: seq<Py>)
    | PData(raw: Raw)

  /** A call returns, raises, or never comes back. */
  datatype Result<+T> = Returns(value: T) | Raises | Hangs

  predicate IsInt32(i: int) {
    -0x8000_0000 <= i < 0x8000_0000
  }

  // ---------------------------------------------------------------------- packing

  /** struct.pack raises on an int, or a length, that does not fit in a native int. */
  function Pack(v: Py): (r: Result<Raw>)
    decreases v, 1
  {
    match v
    case PNone => Returns(Raw(TYPE_NULL, []))
    case PInt(i) => if IsInt32(i) then Returns(Raw(TYPE_INT, EncodeInt(i))) else Raises
    case PStr(s) => Returns(Raw(TYPE_STRING, s))
    case PData(raw) => Returns(raw)
    case PTuple(items) =>
      var b := PackItems(items);
      if b.Returns? then Returns(Raw(TYPE_STRUCT, b.value)) else Raises
  }

  function PackItems(items: seq<Py>): (b: Result<seq<byte>>)
    decreases items, 0
  {
    if items == [] then Returns([])
    else
      var r := Pack(items[0]);
      if !r.Returns? || !Fits(r.value) then Raises
      else
        var rest := PackItems(items[1..]);
        if !rest.Returns? then Raises else Returns(RenderOne(r.value) + rest.value)
  }

  /** How many bytes of data a value takes. */
  function Size(v: Py): (n: nat)
    decreases v, 1
  {
    match v
    case PNone => 0
    case PInt(_) => 4
    case PStr(s) => |s|
    case PData(raw) => |raw.data|
    case PTuple(items) => Sizes(items)
  }

  function Sizes(items: seq<Py>): (n: nat)
    decreases items, 0
  {
    if items == [] then 0 else 8 + Size(items[0]) + Sizes(items[1..])
  }

  predicate Packable(v: Py)
    decreases v
  {
    match v
    case PInt(i) => -0x8000_0000 <= i < 0x8000_0000
    case PTuple(items) => forall i | 0 <= i < |items| :: Packable(items[i]) && Size(items[i]) < 0x8000_0000
    case _ => true
  }

  /** The client packs a value exactly if its numbers and the lengths of its parts fit in 32
      bits; and the data has the size of the value. */
  lemma {:induction false} PacksIff(v: Py)
    ensures Pack(v).Returns? <==> Packable(v)
    ensures Pack(v).Returns? ==> |Pack(v).value.data| == Size(v)
    decreases v, 1
  {
    if v.PTuple? { PacksItemsIff(v.items); }
  }

  lemma {:induction false} PacksItemsIff(items: seq<Py>)
    ensures PackItems(items).Returns? <==> forall i | 0 <= i < |items| :: Packable(items[i]) && Size(items[i]) < 0x8000_0000
    ensures PackItems(items).Returns? ==> |PackItems(items).value| == Sizes(items)
    decreases items, 0
  {
    if items != [] {
      PacksIff(items[0]);
      PacksItemsIff(items[1..]);
      assert items == [items[0]] + items[1..];
    }
  }

  // -------------------------------------------------------------------- unpacking

  /** Where a Python slice bound lands in a string of length `n`. */
  function Bound(i: int, n: nat): (k: nat)
    ensures k <= n
  {
    if i < 0 then (if i + n < 0 then 0 else i + n) else if i > n then n else i
  }

  function Slice(d: seq<byte>, i: int, j: int): (r: seq<byte>) {
    var a, b := Bound(i, |d|), Bound(j, |d|);
    if a <= b then d[a..b] else []
  }

  function From(d: seq<byte>, i: int): (r: seq<byte>) {
    d[Bound(i, |d|)..]
  }

  function Unpack(r: Raw): (v: Result<Py>)
    decreases |r.data|, 1
  {
    if r.typ == TYPE_NULL then Returns(PNone)
    else if r.typ == TYPE_INT then
      if |r.data| == 4 then Returns(PInt(DecodeInt(r.data))) else Raises
    else if r.typ == TYPE_LONG then
      if |r.data| == 8 then Returns(PInt(SignedLong(Value(r.data)))) else Raises
    else if r.typ == TYPE_STRING then Returns(PStr(r.data))
    else if r.typ == TYPE_STRUCT then
      var items := UnpackItems(r.data);
      if items.Returns? then Returns(PTuple(items.value)) else if items.Raises? then Raises else Hangs
    else Returns(PData(r))
  }

  function SignedLong(u: nat): (i: int) {
    if u >= 0x8000_0000_0000_0000 then u - 0x1_0000_0000_0000_0000 else u
  }

  /** The loop over a structure.  It eats one entry a turn; with a negative length the rest
      of the string may fail to get shorter, and then the loop never ends. */
  function UnpackItems(d: seq<byte>): (vs: Result<seq<Py>>)
    decreases |d|, 0
  {
    if d == [] then Returns([])
    else if |d| < HEAD then Raises
    else
      var l := HeadLen(d);
      var first := Unpack(Raw(HeadType(d), Slice(d, HEAD, HEAD + l)));
      var rest := From(d, HEAD + l);
      if !first.Returns? then (if first.Raises? then Raises else Hangs)
      else if |rest| >= |d| then Hangs
      else
        var more := UnpackItems(rest);
        if more.Returns? then Returns([first.value] + more.value) else more
  }

  // ------------------------------------------------------------------- round trip

  /** A value that is its own meaning: ints in range, and NgcsData only of a type that
      unpacking leaves alone. */
  predicate Plain(v: Py)
    decreases v
  {
    match v
    case PInt(i) => IsInt32(i)
    case PData(r) => r.typ !in {TYPE_NULL, TYPE_INT, TYPE_LONG, TYPE_STRING, TYPE_STRUCT}
    case PTuple(items) => forall i | 0 <= i < |items| :: Plain(items[i])
    case _ => true
  }

  lemma UnpackCons(r: Raw, rest: seq<byte>)
    requires Fits(r)
    ensures UnpackItems(RenderOne(r) + rest) ==
            var first, more := Unpack(r), UnpackItems(rest);
            if first.Raises? then Raises
            else if first.Hangs? then Hangs
            else if more.Returns? then Returns([first.value] + more.value) else more
  {
    var d := RenderOne(r) + rest;
    RenderOneHead(r, rest);
    assert d != [];
  }

  /** However deep the nesting: unpacking a packed value gives that value back. */
  lemma {:induction false} RoundTrip(v: Py)
    requires Plain(v) && Pack(v).Returns?
    ensures Unpack(Pack(v).value) == Returns(v)
    decreases v, 1
  {
    match v
    case PInt(i) => DecodeEncode(i);
    case PTuple(items) => RoundTripItems(items);
    case _ =>
  }

  lemma {:induction false} RoundTripItems(items: seq<Py>)
    requires (forall i | 0 <= i < |items| :: Plain(items[i])) && PackItems(items).Returns?
    ensures UnpackItems(PackItems(items).value) == Returns(items)
    decreases items, 0
  {
    if items != [] {
      RoundTrip(items[0]);
      RoundTripItems(items[1..]);
      UnpackCons(Pack(items[0]).value, PackItems(items[1..]).value);
      assert [items[0]] + items[1..] == items;
    }
  }

  // ------------------------------------------------------------ the two sides agree

  /** A tuple the client packs is a structure the C side parses into one entry for each
      item, and nothing is left over. */
  lemma {:induction false} PackedTupleParses(items: seq<Py>)
    requires PackItems(items).Returns?
    ensures var rs := Parse(PackItems(items).value);
            && rs.Some? && |rs.value| == |items|
            && Render(rs.value) == PackItems(items).value
            && forall i | 0 <= i < |items| :: Pack(items[i]) == Returns(rs.value[i])
    decreases |items|
  {
    if items != [] {
      PackedTupleParses(items[1..]);
      var r, rest := Pack(items[0]).value, PackItems(items[1..]).value;
      ParseCons(r, rest);
      var rs := Parse(PackItems(items).value).value;
      assert rs[1..] == Parse(rest).value;
      forall i | 0 <= i < |items| ensures Pack(items[i]) == Returns(rs[i]) {
        if i > 0 { assert items[i] == items[1..][i - 1] && rs[i] == rs[1..][i - 1]; }
      }
    }
  }

  lemma Power8()
    ensures Power(8) == 0x1_0000_0000_0000_0000
  {
    Power4();
    assert Power(5) == 0x100_0000_0000 && Power(6) == 0x1_0000_0000_0000 && Power(7) == 0x100_0000_0000_0000;
  }

  /** The client reads eight bytes as the number they encode, and takes no other long. */
  lemma LongUnpacks(x: int, data: seq<byte>)
    requires -0x8000_0000_0000_0000 <= x < 0x8000_0000_0000_0000
    ensures Unpack(Raw(TYPE_LONG, Bytes(if x < 0 then x + 0x1_0000_0000_0000_0000 else x, 8))) == Returns(PInt(x))
    ensures |data| != 8 ==> Unpack(Raw(TYPE_LONG, data)) == Raises
  {
    Power8();
    ValueBytes(if x < 0 then x + 0x1_0000_0000_0000_0000 else x, 8);
  }

  /** The first entry that does not unpack. */
  predicate FirstBad(rs: seq<Raw>, i: nat) {
    i < |rs| && !Unpack(rs[i]).Returns? && forall j | 0 <= j < i :: Unpack(rs[j]).Returns?
  }

  lemma FirstBadTail(rs: seq<Raw>, i: nat)
    requires 0 < i && FirstBad(rs, i)
    ensures FirstBad(rs[1..], i - 1) && Unpack(rs[0]).Returns?
  {
    assert forall j | 0 <= j < i - 1 :: rs[1..][j] == rs[j + 1];
  }

  lemma {:induction false} FirstBadStops(rs: seq<Raw>, i: nat)
    requires AllFit(rs) && FirstBad(rs, i)
    ensures UnpackItems(Render(rs)) == if Unpack(rs[i]).Raises? then Raises else Hangs
    decreases i
  {
    if i == 0 {
      UnpackCons(rs[0], Render(rs[1..]));
    } else {
      FirstBadTail(rs, i);
      FirstBadStops(rs[1..], i - 1);
      GoodThenBad(rs[0], Render(rs[1..]));
      assert Render(rs) == RenderOne(rs[0]) + Render(rs[1..]);
    }
  }

  lemma GoodThenBad(r: Raw, rest: seq<byte>)
    requires Fits(r) && Unpack(r).Returns? && !UnpackItems(rest).Returns?
    ensures UnpackItems(RenderOne(r) + rest) == UnpackItems(rest)
  {
    UnpackCons(r, rest);
  }

  /** On entries rendered by the C side, the first one that raises makes the client raise, and
      the first one that makes it hang makes it hang; it does neither by itself. */
  lemma {:induction false} FirstBadDecides(rs: seq<Raw>, i: nat)
    requires AllFit(rs) && FirstBad(rs, i)
    ensures Unpack(Raw(TYPE_STRUCT, Render(rs))) == if Unpack(rs[i]).Raises? then Raises else Hangs
  {
    FirstBadStops(rs, i);
  }

  /** A block that the client never comes back from: one whose first entry has length minus
      eight, whatever follows. */
  lemma MinusEightHangs(rest: seq<byte>)
    ensures UnpackItems(EncodeInt(TYPE_NULL) + EncodeInt(-8) + rest) == Hangs
  {
    var d := EncodeInt(TYPE_NULL) + EncodeInt(-8) + rest;
    assert d[..4] == EncodeInt(TYPE_NULL) && d[4..8] == EncodeInt(-8);
    DecodeEncode(TYPE_NULL);
    DecodeEncode(-8);
  }

  /** And entries rendered by the C side unpack entry by entry. */
  lemma {:induction false} RenderedUnpacks(rs: seq<Raw>, vs: seq<Py>)
    requires AllFit(rs) && |rs| == |vs| && forall i | 0 <= i < |rs| :: Unpack(rs[i]) == Returns(vs[i])
    ensures Unpack(Raw(TYPE_STRUCT, Render(rs))) == Returns(PTuple(vs))
    decreases |rs|
  {
    if rs != [] {
      RenderedUnpacks(rs[1..], vs[1..]);
      UnpackCons(rs[0], Render(rs[1..]));
      assert [vs[0]] + vs[1..] == vs;
    }
  }
}
