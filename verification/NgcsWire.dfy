/**
  The ngcs byte format both ends share: native ints, and structures made of entries
  that each carry a type, a length and that many bytes.
 */
module NgcsWire {

  import opened Basics

  type byte = x: int | 0 <= x < 256
  type int32 = x: int | -0x8000_0000 <= x < 0x8000_0000

  const TYPE_NULL: int32 := 0
  const TYPE_INT: int32 := 1
  const TYPE_STRING: int32 := 2
  const TYPE_BLOB: int32 := 3
  const TYPE_LONG: int32 := 4
  const TYPE_STRUCT: int32 := 6
  const TYPE_ERROR: int32 := 8

  // ------------------------------------------------------------------ native ints

  function Power(n: nat): (p: nat) {
    if n == 0 then 1 else 256 * Power(n - 1)
  }

  /** `n` bytes, least significant first. */
  function Bytes(u: nat, n: nat): (b: seq<byte>)
    ensures |b| == n
  {
    if n == 0 then [] else [u % 256] + Bytes(u / 256, n - 1)
  }

  function Value(b: seq<byte>): (u: nat)
    ensures u < Power(|b|)
  {
    if b == [] then 0 else b[0] as int + 256 * Value(b[1..])
  }

  lemma {:induction false} ValueBytes(u: nat, n: nat)
    requires u < Power(n)
    ensures Value(Bytes(u, n)) == u
    decreases n
  {
    if n > 0 {
      ValueBytes(u / 256, n - 1);
      assert Bytes(u, n)[1..] == Bytes(u / 256, n - 1);
    }
  }

  lemma {:induction false} BytesValue(b: seq<byte>)
    ensures Bytes(Value(b), |b|) == b
    decreases |b|
  {
    if b != [] {
      BytesValue(b[1..]);
      assert Value(b) % 256 == b[0] && Value(b) / 256 == Value(b[1..]);
    }
  }

  lemma Power4()
    ensures Power(4) == 0x1_0000_0000
  {
    assert Power(1) == 256 && Power(2) == 0x1_0000 && Power(3) == 0x100_0000;
  }

  /** A native int: four bytes, two's complement. */
  function EncodeInt(i: int32): (b: seq<byte>)
    ensures |b| == 4
  {
    Bytes(if i < 0 then i + 0x1_0000_0000 else i, 4)
  }

  function DecodeInt(b: seq<byte>): (i: int32)
    requires |b| == 4
  {
    Power4();
    var u := Value(b);
    if u >= 0x8000_0000 then u - 0x1_0000_0000 else u
  }

  lemma DecodeEncode(i: int32)
    ensures DecodeInt(EncodeInt(i)) == i
  {
    Power4();
    ValueBytes(if i < 0 then i + 0x1_0000_0000 else i, 4);
  }

  lemma EncodeDecode(b: seq<byte>)
    requires |b| == 4
    ensures EncodeInt(DecodeInt(b)) == b
  {
    Power4();
    BytesValue(b);
  }

  // ---------------------------------------------------------------------- entries

  /** A typed block of bytes, as it travels. */
  datatype Raw = Raw(typ: int32, data: seq<byte>)

  const HEAD := 8

  predicate Fits(r: Raw) {
    |r.data| < 0x8000_0000
  }

  predicate AllFit(rs: seq<Raw>) {
    forall i | 0 <= i < |rs| :: Fits(rs[i])
  }

  function RenderOne(r: Raw): (b: seq<byte>)
    requires Fits(r)
    ensures |b| == HEAD + |r.data|
  {
    EncodeInt(r.typ) + EncodeInt(|r.data|) + r.data
  }

  function Render(rs: seq<Raw>): (b: seq<byte>)
    requires AllFit(rs)
  {
    if rs == [] then [] else RenderOne(rs[0]) + Render(rs[1..])
  }

  function HeadType(b: seq<byte>): (t: int32)
    requires |b| >= HEAD
  {
    DecodeInt(b[..4])
  }

  function HeadLen(b: seq<byte>): (l: int32)
    requires |b| >= HEAD
  {
    DecodeInt(b[4..8])
  }

  /** The entries of a block: fewer than eight bytes left over are ignored; a negative
      length, or one that runs past the end, is an error. */
  function Parse(b: seq<byte>): (r: Option<seq<Raw>>)
    ensures r.Some? ==> AllFit(r.value)
    decreases |b|
  {
    if |b| < HEAD then Some([])
    else
      var l := HeadLen(b);
      if l < 0 || |b| - HEAD < l then None
      else
        var rest := Parse(b[HEAD + l..]);
        if rest.None? then None else Some([Raw(HeadType(b), b[HEAD..HEAD + l])] + rest.value)
  }

  lemma RenderOneHead(r: Raw, rest: seq<byte>)
    requires Fits(r)
    ensures var b := RenderOne(r) + rest;
            && HeadType(b) == r.typ && HeadLen(b) == |r.data|
            && b[HEAD..HEAD + |r.data|] == r.data && b[HEAD + |r.data|..] == rest
  {
    var b := RenderOne(r) + rest;
    assert b[..4] == EncodeInt(r.typ);
    assert b[4..8] == EncodeInt(|r.data|);
    DecodeEncode(r.typ);
    DecodeEncode(|r.data|);
  }

  lemma HeadRenders(b: seq<byte>)
    requires |b| >= HEAD && 0 <= HeadLen(b) <= |b| - HEAD
    ensures RenderOne(Raw(HeadType(b), b[HEAD..HEAD + HeadLen(b)])) == b[..HEAD + HeadLen(b)]
  {
    EncodeDecode(b[..4]);
    EncodeDecode(b[4..8]);
    assert b[..HEAD + HeadLen(b)] == b[..4] + b[4..8] + b[HEAD..HEAD + HeadLen(b)];
  }

  lemma Halves<T>(a: seq<T>, n: nat)
    requires n <= |a|
    ensures a == a[..n] + a[n..]
  {
  }

  lemma ParseCons(r: Raw, rest: seq<byte>)
    requires Fits(r)
    ensures Parse(RenderOne(r) + rest) ==
            if Parse(rest).None? then None else Some([r] + Parse(rest).value)
  {
    RenderOneHead(r, rest);
  }

  /** Parsing finds exactly the entries that were rendered, whatever short tail follows. */
  lemma {:induction false} ParseRender(rs: seq<Raw>, tail: seq<byte>)
    requires AllFit(rs) && |tail| < HEAD
    ensures Parse(Render(rs) + tail) == Some(rs)
    decreases |rs|
  {
    if rs == [] {
      assert Render(rs) + tail == tail;
    } else {
      Assoc(RenderOne(rs[0]), Render(rs[1..]), tail);
      ParseRender(rs[1..], tail);
      ParseCons(rs[0], Render(rs[1..]) + tail);
      assert rs == [rs[0]] + rs[1..];
    }
  }

  /** And a block that parses is its entries rendered, plus a short tail. */
  lemma {:induction false} RenderParse(b: seq<byte>)
    requires Parse(b).Some?
    ensures var n := |Render(Parse(b).value)|;
            n <= |b| < n + HEAD && b[..n] == Render(Parse(b).value)
    decreases |b|
  {
    if |b| >= HEAD {
      var l := HeadLen(b);
      var rest := b[HEAD + l..];
      RenderParse(rest);
      HeadRenders(b);
      var rs := Parse(b).value;
      assert rs[1..] == Parse(rest).value;
      var m := |Render(rs[1..])|;
      assert b == b[..HEAD + l] + rest;
      assert b[..HEAD + l + m] == b[..HEAD + l] + rest[..m];
    }
  }

  /** So exactly the blocks of that form parse. */
  lemma ParsesExactly(b: seq<byte>, rs: seq<Raw>)
    requires AllFit(rs)
    ensures Parse(b) == Some(rs) <==>
            |Render(rs)| <= |b| < |Render(rs)| + HEAD && b[..|Render(rs)|] == Render(rs)
  {
    var n := |Render(rs)|;
    if Parse(b) == Some(rs) { RenderParse(b); }
    if n <= |b| < n + HEAD && b[..n] == Render(rs) {
      Halves(b, n);
      ParseRender(rs, b[n..]);
    }
  }

  lemma {:induction false} RenderConcat(a: seq<Raw>, b: seq<Raw>)
    requires AllFit(a) && AllFit(b)
    ensures AllFit(a + b) && Render(a + b) == Render(a) + Render(b)
    decreases |a|
  {
    if a == [] {
      assert a + b == b && Render(a) == [];
      assert [] + Render(b) == Render(b);
    } else {
      assert (a + b)[0] == a[0] && (a + b)[1..] == a[1..] + b;
      RenderConcat(a[1..], b);
      Assoc(RenderOne(a[0]), Render(a[1..]), Render(b));
    }
  }

  // --------------------------------------------------------------- the bytes, written out

  /** The lowest byte comes first, and a negative int is its two's complement. */
  lemma IntBytes(i: int32)
    ensures var u := if i < 0 then i + 0x1_0000_0000 else i;
            EncodeInt(i) == [u % 256, u / 256 % 256, u / 256 / 256 % 256, u / 256 / 256 / 256 % 256]
  {
    var u := if i < 0 then i + 0x1_0000_0000 else i;
    assert Bytes(u / 256 / 256 / 256, 1) == [u / 256 / 256 / 256 % 256] + Bytes(u / 256 / 256 / 256 / 256, 0);
    assert Bytes(u / 256 / 256, 2) == [u / 256 / 256 % 256] + Bytes(u / 256 / 256 / 256, 1);
    assert Bytes(u / 256, 3) == [u / 256 % 256] + Bytes(u / 256 / 256, 2);
    assert Bytes(u, 4) == [u % 256] + Bytes(u / 256, 3);
  }

  /** An entry of one byte: its type, the length one, and the byte. */
  lemma EntryBytes(x: byte)
    ensures RenderOne(Raw(TYPE_STRING, [x])) == [2, 0, 0, 0, 1, 0, 0, 0, x]
  {
    IntBytes(2);
    IntBytes(1);
  }
}
