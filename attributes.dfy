/**
 * The netlink attribute (type-length-value) layout: each record is a 16-bit declared
 * length, a 16-bit type, the value, and zero bytes up to the next multiple of 4.
 * A nested record carries bit 15 in its type and a value that is itself a record list.
 */
module Attributes {
  import opened Wire

  const HeaderLen: nat := 4
  /** NLA_F_NESTED: bit 15 of the type field. */
  const NestedFlag: u16 := 0x8000
  /** Bit 14 (NLA_F_NET_BYTEORDER) is never set by this encoder. */
  const ByteOrderFlag: u16 := 0x4000

  /** An attribute type number, without the two flag bits. */
  type Kind = k: int | 0 <= k < 0x4000

  datatype Attribute =
    | Scalar(kind: Kind, value: Bytes)
    | Nested(kind: Kind, children: seq<Attribute>)

  /**
   * One record with type field `typ` and payload `value`. The declared length is the
   * header plus the unpadded value, stored as a uint16 (so truncated modulo 2^16); the
   * pad is not counted in it.
   */
  function Attr(typ: u16, value: Bytes): (r: Bytes)
    ensures |r| == Align(HeaderLen + |value|)
    ensures ReadLE16(r[0..2]) == (HeaderLen + |value|) % 0x1_0000
    ensures ReadLE16(r[2..4]) == typ
    ensures r[HeaderLen..HeaderLen + |value|] == value
    ensures r[HeaderLen + |value|..] == Zeros(Pad(|value|))
  {
    var r := LE16((HeaderLen + |value|) % 0x1_0000) + LE16(typ) + value + Zeros(Pad(|value|));
    assert r[0..2] == LE16((HeaderLen + |value|) % 0x1_0000);
    assert r[2..4] == LE16(typ);
    assert r[HeaderLen + |value|..] == Zeros(Pad(|value|));
    r
  }

  /** A record whose value is already a multiple of 4 long gets no pad. */
  lemma AttrUnpadded(typ: u16, value: Bytes)
    requires |value| % 4 == 0 && HeaderLen + |value| < 0x1_0000
    ensures Attr(typ, value) == LE16(HeaderLen + |value|) + LE16(typ) + value
  {
    var h := LE16(HeaderLen + |value|) + LE16(typ) + value;
    assert Pad(|value|) == 0;
    assert Attr(typ, value) == h + Zeros(0);
    assert Zeros(0) == [];
    assert h + [] == h;
  }

  function Encode(a: Attribute): Bytes
    decreases a
  {
    match a
    case Scalar(k, v) => Attr(k, v)
    case Nested(k, cs) => Attr(k + NestedFlag, EncodeAll(cs))
  }

  /** A record list is the concatenation of its records. */
  function EncodeAll(cs: seq<Attribute>): Bytes
    decreases cs
  {
    if cs == [] then [] else Encode(cs[0]) + EncodeAll(cs[1..])
  }

  /** Every declared length in the tree fits its 16-bit field. */
  predicate Fits(a: Attribute)
  {
    |Encode(a)| < 0x1_0000
  }

  // ---------------------------------------------------------------------------
  // Layout facts about the encoder

  lemma {:induction false} EncodeAllAligned(cs: seq<Attribute>)
    ensures |EncodeAll(cs)| % 4 == 0
    decreases cs
  {
    if cs != [] {
      EncodeAligned(cs[0]);
      EncodeAllAligned(cs[1..]);
      SumAligned(|Encode(cs[0])|, |EncodeAll(cs[1..])|);
    }
  }

  lemma SumAligned(x: nat, y: nat)
    requires x % 4 == 0 && y % 4 == 0
    ensures (x + y) % 4 == 0
  {
  }

  /** Every record occupies a multiple of 4 bytes, and at least its header. */
  lemma EncodeAligned(a: Attribute)
    ensures |Encode(a)| % 4 == 0 && |Encode(a)| >= HeaderLen
  {
  }

  lemma {:induction false} EncodeAllAppend(xs: seq<Attribute>, ys: seq<Attribute>)
    ensures EncodeAll(xs + ys) == EncodeAll(xs) + EncodeAll(ys)
    decreases xs
  {
    if xs == [] {
      assert xs + ys == ys;
    } else {
      assert (xs + ys)[1..] == xs[1..] + ys;
      EncodeAllAppend(xs[1..], ys);
    }
  }

  lemma EncodeAllSingle(a: Attribute)
    ensures EncodeAll([a]) == Encode(a)
  {
    assert [a][1..] == [];
  }

  lemma EncodeAllPair(a: Attribute, b: Attribute)
    ensures EncodeAll([a, b]) == Encode(a) + Encode(b)
  {
    assert [a, b][1..] == [b];
    EncodeAllSingle(b);
  }

  lemma EncodeAllTriple(a: Attribute, b: Attribute, c: Attribute)
    ensures EncodeAll([a, b, c]) == Encode(a) + (Encode(b) + Encode(c))
  {
    assert [a, b, c][1..] == [b, c];
    EncodeAllPair(b, c);
  }

  /**
   * A scalar record declares 4 plus its value length, carries its kind without the
   * nested bit, and is followed by zero bytes up to a multiple of 4.
   */
  lemma ScalarLayout(k: Kind, v: Bytes)
    requires HeaderLen + |v| < 0x1_0000
    ensures var r := Encode(Scalar(k, v));
      && ReadLE16(r[0..2]) == HeaderLen + |v|
      && ReadLE16(r[2..4]) == k && k < NestedFlag
      && |r| == HeaderLen + |v| + Pad(|v|)
      && r[HeaderLen..HeaderLen + |v|] == v
      && r[HeaderLen + |v|..] == Zeros(Pad(|v|))
  {
  }

  /**
   * A nested record declares 4 plus the full (padded) sizes of its children, carries
   * bit 15 in its type, and needs no pad of its own.
   */
  lemma NestedLayout(k: Kind, cs: seq<Attribute>)
    requires Fits(Nested(k, cs))
    ensures var r := Encode(Nested(k, cs));
      && ReadLE16(r[0..2]) == HeaderLen + |EncodeAll(cs)| == |r|
      && ReadLE16(r[2..4]) == k + NestedFlag
      && r[HeaderLen..] == EncodeAll(cs)
  {
    var body := EncodeAll(cs);
    NestedBytes(k, cs);
    var len, typ := LE16(HeaderLen + |body|), LE16(k + NestedFlag);
    var r := len + typ + body;
    assert r[0..2] == len && r[2..4] == typ && r[HeaderLen..] == body;
  }

  /** A nested record that fits is its two header words followed by its children, unpadded. */
  lemma NestedBytes(k: Kind, cs: seq<Attribute>)
    requires HeaderLen + |EncodeAll(cs)| < 0x1_0000
    ensures Encode(Nested(k, cs)) == LE16(HeaderLen + |EncodeAll(cs)|) + LE16(k + NestedFlag) + EncodeAll(cs)
  {
    EncodeAllAligned(cs);
    AttrUnpadded(k + NestedFlag, EncodeAll(cs));
  }

  /** The padded children sizes a nested record adds up, child by child. */
  function SizeAll(cs: seq<Attribute>): nat
  {
    if cs == [] then 0 else |Encode(cs[0])| + SizeAll(cs[1..])
  }

  lemma {:induction false} EncodeAllSize(cs: seq<Attribute>)
    ensures |EncodeAll(cs)| == SizeAll(cs)
    decreases cs
  {
    if cs != [] {
      EncodeAllSize(cs[1..]);
    }
  }

  // ---------------------------------------------------------------------------
  // A reference reader of the layout: it walks records by their declared lengths and
  // descends into a value whenever bit 15 of the type is set.

  function ReadRecord(b: Bytes): (r: Option<(Attribute, Bytes)>)
    ensures r.Some? ==> |r.value.1| < |b|
    decreases |b|, 0
  {
    if |b| < HeaderLen then None
    else
      var len, typ := ReadLE16(b[0..2]), ReadLE16(b[2..4]);
      if len < HeaderLen || Align(len) > |b| then None
      else if typ < ByteOrderFlag then
        Some((Scalar(typ, b[HeaderLen..len]), b[Align(len)..]))
      else if NestedFlag <= typ < NestedFlag + ByteOrderFlag then
        var cs :- ReadAll(b[HeaderLen..len]);
        Some((Nested(typ - NestedFlag, cs), b[Align(len)..]))
      else None
  }

  function ReadAll(b: Bytes): Option<seq<Attribute>>
    decreases |b|, 1
  {
    if b == [] then Some([])
    else
      var (a, rest) :- ReadRecord(b);
      var cs :- ReadAll(rest);
      Some([a] + cs)
  }

  /** Reading an encoded record back yields the record and leaves what follows it. */
  lemma {:induction false} ReadEncoded(a: Attribute, rest: Bytes)
    requires Fits(a)
    ensures ReadRecord(Encode(a) + rest) == Some((a, rest))
    decreases |Encode(a)|, 0
  {
    match a
    case Scalar(k, v) =>
      ReadScalarEncoded(k, v, rest);
    case Nested(k, cs) =>
      assert Encode(Nested(k, cs)) == Attr(k + NestedFlag, EncodeAll(cs));
      ReadAllEncoded(cs);
      ReadNestedEncoded(k, cs, rest);
  }

  /** A nested record is read back whenever its children are. */
  lemma ReadNestedEncoded(k: Kind, cs: seq<Attribute>, rest: Bytes)
    requires HeaderLen + |EncodeAll(cs)| < 0x1_0000
    requires ReadAll(EncodeAll(cs)) == Some(cs)
    ensures ReadRecord(Encode(Nested(k, cs)) + rest) == Some((Nested(k, cs), rest))
  {
    var body := EncodeAll(cs);
    assert Encode(Nested(k, cs)) == Attr(k + NestedFlag, EncodeAll(cs));
    EncodeAllAligned(cs);
    ReadHeader(k + NestedFlag, body, rest);
  }

  lemma ReadScalarEncoded(k: Kind, v: Bytes, rest: Bytes)
    requires HeaderLen + |v| < 0x1_0000
    ensures ReadRecord(Encode(Scalar(k, v)) + rest) == Some((Scalar(k, v), rest))
  {
    assert Encode(Scalar(k, v)) == Attr(k, v);
    ReadHeader(k, v, rest);
  }

  /** The header fields and the value of one record, read back from a byte stream. */
  lemma ReadHeader(typ: u16, v: Bytes, rest: Bytes)
    requires HeaderLen + |v| < 0x1_0000
    ensures var r := Attr(typ, v); var b := r + rest;
      && |b| >= HeaderLen
      && ReadLE16(b[0..2]) == HeaderLen + |v|
      && ReadLE16(b[2..4]) == typ
      && Align(HeaderLen + |v|) == |r| <= |b|
      && b[HeaderLen..HeaderLen + |v|] == v
      && b[|r|..] == rest
  {
    var r := Attr(typ, v);
    var b := r + rest;
    assert b[0..2] == r[0..2] && b[2..4] == r[2..4];
    assert b[HeaderLen..HeaderLen + |v|] == r[HeaderLen..HeaderLen + |v|];
  }

  /** Reading an encoded record list back yields the list. */
  lemma {:induction false} ReadAllEncoded(cs: seq<Attribute>)
    requires |EncodeAll(cs)| < 0x1_0000
    ensures ReadAll(EncodeAll(cs)) == Some(cs)
    decreases |EncodeAll(cs)|, 1
  {
    if cs != [] {
      var head, tail := Encode(cs[0]), EncodeAll(cs[1..]);
      EncodeAligned(cs[0]);
      ReadEncoded(cs[0], tail);
      ReadAllEncoded(cs[1..]);
      assert [cs[0]] + cs[1..] == cs;
    }
  }

  /** The byte layout determines the record list: encoding is injective. */
  lemma EncodeAllInjective(xs: seq<Attribute>, ys: seq<Attribute>)
    requires |EncodeAll(xs)| < 0x1_0000 && |EncodeAll(ys)| < 0x1_0000
    requires EncodeAll(xs) == EncodeAll(ys)
    ensures xs == ys
  {
    ReadAllEncoded(xs);
    ReadAllEncoded(ys);
  }
}
