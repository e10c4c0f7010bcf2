/**
 * The conntrack entry (`Con`) and its attribute tree, as nestAttributes builds it for a
 * create request: origin tuple, reply tuple, timeout, protocol info, each only when set.
 */
module ConntrackEntry {
  import opened Wire
  import opened Attributes

  /** An IPv4 address in network order, as net.IP.To4 gives it. */
  type IPv4 = s: Bytes | |s| == 4 witness [0, 0, 0, 0]

  datatype ProtoTuple = ProtoTuple(number: Option<byte>, srcPort: Option<u16>, dstPort: Option<u16>)
  datatype IPTuple = IPTuple(src: Option<IPv4>, dst: Option<IPv4>, proto: Option<ProtoTuple>)
  datatype TCPInfo = TCPInfo(state: Option<byte>)
  /** Protocol-specific information; TCP is the only variant modelled. */
  datatype ProtoInfo = TCP(tcp: TCPInfo)
  datatype Con = Con(
    origin: Option<IPTuple>,
    reply: Option<IPTuple>,
    timeout: Option<u32>,
    protoInfo: Option<ProtoInfo>)

  // Top-level attribute numbers (CTA_TUPLE_ORIG, CTA_TUPLE_REPLY, CTA_PROTOINFO, CTA_TIMEOUT)
  const TupleOrig: Kind := 1
  const TupleReply: Kind := 2
  const ProtoInfoKind: Kind := 4
  const TimeoutKind: Kind := 7
  // Inside a tuple (CTA_TUPLE_IP, CTA_TUPLE_PROTO)
  const TupleIP: Kind := 1
  const TupleProto: Kind := 2
  // Inside the IP block (CTA_IP_V4_SRC, CTA_IP_V4_DST)
  const IPv4Src: Kind := 1
  const IPv4Dst: Kind := 2
  // Inside the protocol block (CTA_PROTO_NUM, CTA_PROTO_SRC_PORT, CTA_PROTO_DST_PORT)
  const ProtoNum: Kind := 1
  const ProtoSrcPort: Kind := 2
  const ProtoDstPort: Kind := 3
  // Inside protocol info (CTA_PROTOINFO_TCP, then CTA_PROTOINFO_TCP_STATE)
  const ProtoInfoTCP: Kind := 1
  const TCPState: Kind := 1

  /** The order in which the top-level records are emitted. */
  const TopLevelOrder: seq<Kind> := [TupleOrig, TupleReply, TimeoutKind, ProtoInfoKind]

  // ---------------------------------------------------------------------------
  // Encoder

  function IPAttrs(t: IPTuple): seq<Attribute>
  {
    (if t.src.Some? then [Scalar(IPv4Src, t.src.value)] else [])
    + (if t.dst.Some? then [Scalar(IPv4Dst, t.dst.value)] else [])
  }

  function ProtoAttrs(p: ProtoTuple): seq<Attribute>
  {
    (if p.number.Some? then [Scalar(ProtoNum, [p.number.value])] else [])
    + (if p.srcPort.Some? then [Scalar(ProtoSrcPort, BE16(p.srcPort.value))] else [])
    + (if p.dstPort.Some? then [Scalar(ProtoDstPort, BE16(p.dstPort.value))] else [])
  }

  /** The IP block is written when an address is set; the protocol block when Proto is set. */
  function TupleAttrs(t: IPTuple): seq<Attribute>
  {
    (if t.src.Some? || t.dst.Some? then [Nested(TupleIP, IPAttrs(t))] else [])
    + (if t.proto.Some? then [Nested(TupleProto, ProtoAttrs(t.proto.value))] else [])
  }

  function TCPAttrs(i: TCPInfo): seq<Attribute>
  {
    if i.state.Some? then [Scalar(TCPState, [i.state.value])] else []
  }

  function ProtoInfoAttrs(p: ProtoInfo): seq<Attribute>
  {
    match p
    case TCP(i) => [Nested(ProtoInfoTCP, TCPAttrs(i))]
  }

  // The top-level record of each field of an entry: one record when it is set, none otherwise.

  function OriginRecords(c: Con): seq<Attribute>
  {
    if c.origin.Some? then [Nested(TupleOrig, TupleAttrs(c.origin.value))] else []
  }

  function ReplyRecords(c: Con): seq<Attribute>
  {
    if c.reply.Some? then [Nested(TupleReply, TupleAttrs(c.reply.value))] else []
  }

  function TimeoutRecords(c: Con): seq<Attribute>
  {
    if c.timeout.Some? then [Scalar(TimeoutKind, BE32(c.timeout.value))] else []
  }

  function ProtoInfoRecords(c: Con): seq<Attribute>
  {
    if c.protoInfo.Some? then [Nested(ProtoInfoKind, ProtoInfoAttrs(c.protoInfo.value))] else []
  }

  function ConAttrs(c: Con): seq<Attribute>
  {
    OriginRecords(c) + ReplyRecords(c) + TimeoutRecords(c) + ProtoInfoRecords(c)
  }

  /**
   * nestAttributes: the attribute bytes of an entry. Every record is 4-byte aligned and
   * the whole is at most 128 bytes (both tuples, timeout and TCP state), so in this model
   * no declared length comes near the 16-bit limit and no input leads to an error.
   */
  function NestAttributes(c: Con): (r: Bytes)
    ensures |r| % 4 == 0 && |r| <= 128
  {
    ConBound(c);
    EncodeAllAligned(ConAttrs(c));
    EncodeAll(ConAttrs(c))
  }

  // ---------------------------------------------------------------------------
  // Size bounds

  lemma {:induction false} OptionalSize(p: bool, a: Attribute, n: nat)
    requires p ==> |Encode(a)| <= n
    ensures |EncodeAll(if p then [a] else [])| <= (if p then n else 0)
  {
    if p {
      EncodeAllSingle(a);
    }
  }

  lemma AppendSize(xs: seq<Attribute>, ys: seq<Attribute>, n: nat, m: nat)
    requires |EncodeAll(xs)| <= n && |EncodeAll(ys)| <= m
    ensures |EncodeAll(xs + ys)| <= n + m
  {
    EncodeAllAppend(xs, ys);
  }

  lemma NestedSize(k: Kind, cs: seq<Attribute>)
    ensures |Encode(Nested(k, cs))| == HeaderLen + |EncodeAll(cs)|
  {
    EncodeAllAligned(cs);
  }

  lemma IPBound(t: IPTuple)
    ensures |EncodeAll(IPAttrs(t))| <= 16
  {
    OptionalSize(t.src.Some?, Scalar(IPv4Src, if t.src.Some? then t.src.value else []), 8);
    OptionalSize(t.dst.Some?, Scalar(IPv4Dst, if t.dst.Some? then t.dst.value else []), 8);
    AppendSize(if t.src.Some? then [Scalar(IPv4Src, t.src.value)] else [],
               if t.dst.Some? then [Scalar(IPv4Dst, t.dst.value)] else [], 8, 8);
  }

  lemma ProtoBound(p: ProtoTuple)
    ensures |EncodeAll(ProtoAttrs(p))| <= 24
  {
    var n := if p.number.Some? then [Scalar(ProtoNum, [p.number.value])] else [];
    var sp := if p.srcPort.Some? then [Scalar(ProtoSrcPort, BE16(p.srcPort.value))] else [];
    var dp := if p.dstPort.Some? then [Scalar(ProtoDstPort, BE16(p.dstPort.value))] else [];
    OptionalSize(p.number.Some?, Scalar(ProtoNum, if p.number.Some? then [p.number.value] else []), 8);
    OptionalSize(p.srcPort.Some?, Scalar(ProtoSrcPort, if p.srcPort.Some? then BE16(p.srcPort.value) else []), 8);
    OptionalSize(p.dstPort.Some?, Scalar(ProtoDstPort, if p.dstPort.Some? then BE16(p.dstPort.value) else []), 8);
    AppendSize(n, sp, 8, 8);
    AppendSize(n + sp, dp, 16, 8);
  }

  lemma TupleBound(t: IPTuple)
    ensures |EncodeAll(TupleAttrs(t))| <= 48
  {
    IPBound(t);
    NestedSize(TupleIP, IPAttrs(t));
    OptionalSize(t.src.Some? || t.dst.Some?, Nested(TupleIP, IPAttrs(t)), 20);
    var pcs := if t.proto.Some? then ProtoAttrs(t.proto.value) else [];
    if t.proto.Some? { ProtoBound(t.proto.value); }
    NestedSize(TupleProto, pcs);
    OptionalSize(t.proto.Some?, Nested(TupleProto, pcs), 28);
    AppendSize(if t.src.Some? || t.dst.Some? then [Nested(TupleIP, IPAttrs(t))] else [],
               if t.proto.Some? then [Nested(TupleProto, pcs)] else [], 20, 28);
  }

  lemma ProtoInfoBound(p: ProtoInfo)
    ensures |EncodeAll(ProtoInfoAttrs(p))| <= 12
  {
    var i := p.tcp;
    OptionalSize(i.state.Some?, Scalar(TCPState, if i.state.Some? then [i.state.value] else []), 8);
    NestedSize(ProtoInfoTCP, TCPAttrs(i));
    EncodeAllSingle(Nested(ProtoInfoTCP, TCPAttrs(i)));
  }

  lemma ConBound(c: Con)
    ensures |EncodeAll(ConAttrs(c))| <= 128
  {
    var ocs := if c.origin.Some? then TupleAttrs(c.origin.value) else [];
    var rcs := if c.reply.Some? then TupleAttrs(c.reply.value) else [];
    var tv := if c.timeout.Some? then BE32(c.timeout.value) else [];
    var pcs := if c.protoInfo.Some? then ProtoInfoAttrs(c.protoInfo.value) else [];
    if c.origin.Some? { TupleBound(c.origin.value); }
    if c.reply.Some? { TupleBound(c.reply.value); }
    if c.protoInfo.Some? { ProtoInfoBound(c.protoInfo.value); }
    NestedSize(TupleOrig, ocs);
    NestedSize(TupleReply, rcs);
    NestedSize(ProtoInfoKind, pcs);
    OptionalSize(c.origin.Some?, Nested(TupleOrig, ocs), 52);
    OptionalSize(c.reply.Some?, Nested(TupleReply, rcs), 52);
    OptionalSize(c.timeout.Some?, Scalar(TimeoutKind, tv), 8);
    OptionalSize(c.protoInfo.Some?, Nested(ProtoInfoKind, pcs), 16);
    var o := if c.origin.Some? then [Nested(TupleOrig, ocs)] else [];
    var r := if c.reply.Some? then [Nested(TupleReply, rcs)] else [];
    var t := if c.timeout.Some? then [Scalar(TimeoutKind, tv)] else [];
    var p := if c.protoInfo.Some? then [Nested(ProtoInfoKind, pcs)] else [];
    AppendSize(o, r, 52, 52);
    AppendSize(o + r, t, 104, 8);
    AppendSize(o + r + t, p, 112, 16);
    assert ConAttrs(c) == o + r + t + p;
  }

  // ---------------------------------------------------------------------------
  // A reference reader: it takes the records back in the order the encoder writes them
  // and fails on a record of the wrong shape or on anything left over.

  /** A leading scalar record of kind `k` whose value must be `w` bytes wide, if there is one. */
  function TakeScalar(cs: seq<Attribute>, k: Kind, w: nat): (r: Option<(Option<Bytes>, seq<Attribute>)>)
    ensures r.Some? && r.value.0.Some? ==> |r.value.0.value| == w
  {
    if cs != [] && cs[0].kind == k then
      if cs[0].Scalar? && |cs[0].value| == w then Some((Some(cs[0].value), cs[1..])) else None
    else Some((None, cs))
  }

  /** A leading nested record of kind `k`, if there is one. */
  function TakeNested(cs: seq<Attribute>, k: Kind): Option<(Option<seq<Attribute>>, seq<Attribute>)>
  {
    if cs != [] && cs[0].kind == k then
      if cs[0].Nested? then Some((Some(cs[0].children), cs[1..])) else None
    else Some((None, cs))
  }

  function AsAddr(o: Option<Bytes>): Option<IPv4>
    requires o.Some? ==> |o.value| == 4
  {
    if o.Some? then Some(o.value) else None
  }

  function AsByte(o: Option<Bytes>): Option<byte>
    requires o.Some? ==> |o.value| == 1
  {
    if o.Some? then Some(o.value[0]) else None
  }

  function AsPort(o: Option<Bytes>): Option<u16>
    requires o.Some? ==> |o.value| == 2
  {
    if o.Some? then Some(ReadBE16(o.value)) else None
  }

  function AddrsOf(cs: seq<Attribute>): Option<(Option<IPv4>, Option<IPv4>)>
  {
    var (s, r1) :- TakeScalar(cs, IPv4Src, 4);
    var (d, r2) :- TakeScalar(r1, IPv4Dst, 4);
    if r2 == [] then Some((AsAddr(s), AsAddr(d))) else None
  }

  function ProtoOf(cs: seq<Attribute>): Option<ProtoTuple>
  {
    var (n, r1) :- TakeScalar(cs, ProtoNum, 1);
    var (sp, r2) :- TakeScalar(r1, ProtoSrcPort, 2);
    var (dp, r3) :- TakeScalar(r2, ProtoDstPort, 2);
    if r3 == [] then Some(ProtoTuple(AsByte(n), AsPort(sp), AsPort(dp))) else None
  }

  function TupleOf(cs: seq<Attribute>): Option<IPTuple>
  {
    var (ip, r1) :- TakeNested(cs, TupleIP);
    var (pr, r2) :- TakeNested(r1, TupleProto);
    if r2 != [] then None
    else
      var addrs :- if ip.Some? then AddrsOf(ip.value) else Some((None, None));
      var proto :- if pr.Some? then (var p :- ProtoOf(pr.value); Some(Some(p))) else Some(None);
      Some(IPTuple(addrs.0, addrs.1, proto))
  }

  function ProtoInfoOf(cs: seq<Attribute>): Option<ProtoInfo>
  {
    var (tcp, r1) :- TakeNested(cs, ProtoInfoTCP);
    if tcp.None? || r1 != [] then None
    else
      var (st, r2) :- TakeScalar(tcp.value, TCPState, 1);
      if r2 == [] then Some(TCP(TCPInfo(AsByte(st)))) else None
  }

  function ConOf(cs: seq<Attribute>): Option<Con>
  {
    var (o, r1) :- TakeNested(cs, TupleOrig);
    var (rp, r2) :- TakeNested(r1, TupleReply);
    var (t, r3) :- TakeScalar(r2, TimeoutKind, 4);
    var (pi, r4) :- TakeNested(r3, ProtoInfoKind);
    if r4 != [] then None
    else
      var origin :- if o.Some? then (var x :- TupleOf(o.value); Some(Some(x))) else Some(None);
      var reply :- if rp.Some? then (var x :- TupleOf(rp.value); Some(Some(x))) else Some(None);
      var info :- if pi.Some? then (var x :- ProtoInfoOf(pi.value); Some(Some(x))) else Some(None);
      Some(Con(origin, reply, if t.Some? then Some(ReadBE32(t.value)) else None, info))
  }

  /** Reads an entry back from attribute bytes. */
  function DecodeCon(b: Bytes): Option<Con>
  {
    var cs :- ReadAll(b);
    ConOf(cs)
  }

  // ---------------------------------------------------------------------------
  // Round trip: the bytes of an entry determine every populated field

  lemma TakeScalarPresent(p: bool, k: Kind, v: Bytes, w: nat, ys: seq<Attribute>)
    requires p ==> |v| == w
    requires ys == [] || ys[0].kind != k
    ensures TakeScalar((if p then [Scalar(k, v)] else []) + ys, k, w)
         == Some((if p then Some(v) else None, ys))
  {
    var xs := (if p then [Scalar(k, v)] else []) + ys;
    if p {
      assert xs[0] == Scalar(k, v) && xs[1..] == ys;
    } else {
      assert xs == ys;
    }
  }

  lemma TakeNestedPresent(p: bool, k: Kind, cs: seq<Attribute>, ys: seq<Attribute>)
    requires ys == [] || ys[0].kind != k
    ensures TakeNested((if p then [Nested(k, cs)] else []) + ys, k)
         == Some((if p then Some(cs) else None, ys))
  {
    var xs := (if p then [Nested(k, cs)] else []) + ys;
    if p {
      assert xs[0] == Nested(k, cs) && xs[1..] == ys;
    } else {
      assert xs == ys;
    }
  }

  lemma AddrsRoundTrip(t: IPTuple)
    ensures AddrsOf(IPAttrs(t)) == Some((t.src, t.dst))
  {
    var d := if t.dst.Some? then [Scalar(IPv4Dst, t.dst.value)] else [];
    TakeScalarPresent(t.src.Some?, IPv4Src, if t.src.Some? then t.src.value else [], 4, d);
    TakeScalarPresent(t.dst.Some?, IPv4Dst, if t.dst.Some? then t.dst.value else [], 4, []);
    assert d + [] == d;
  }

  lemma ProtoRoundTrip(p: ProtoTuple)
    ensures ProtoOf(ProtoAttrs(p)) == Some(p)
  {
    var n := if p.number.Some? then [Scalar(ProtoNum, [p.number.value])] else [];
    var sp := if p.srcPort.Some? then [Scalar(ProtoSrcPort, BE16(p.srcPort.value))] else [];
    var dp := if p.dstPort.Some? then [Scalar(ProtoDstPort, BE16(p.dstPort.value))] else [];
    assert ProtoAttrs(p) == n + (sp + dp);
    TakeScalarPresent(p.number.Some?, ProtoNum, if p.number.Some? then [p.number.value] else [], 1, sp + dp);
    TakeScalarPresent(p.srcPort.Some?, ProtoSrcPort, if p.srcPort.Some? then BE16(p.srcPort.value) else [], 2, dp);
    TakeScalarPresent(p.dstPort.Some?, ProtoDstPort, if p.dstPort.Some? then BE16(p.dstPort.value) else [], 2, []);
    assert dp + [] == dp;
  }

  lemma TupleRoundTrip(t: IPTuple)
    ensures TupleOf(TupleAttrs(t)) == Some(t)
  {
    var pcs := if t.proto.Some? then ProtoAttrs(t.proto.value) else [];
    var pr := if t.proto.Some? then [Nested(TupleProto, pcs)] else [];
    TakeNestedPresent(t.src.Some? || t.dst.Some?, TupleIP, IPAttrs(t), pr);
    TakeNestedPresent(t.proto.Some?, TupleProto, pcs, []);
    assert pr + [] == pr;
    AddrsRoundTrip(t);
    if t.proto.Some? {
      ProtoRoundTrip(t.proto.value);
    }
  }

  lemma ProtoInfoRoundTrip(p: ProtoInfo)
    ensures ProtoInfoOf(ProtoInfoAttrs(p)) == Some(p)
  {
    var i := p.tcp;
    TakeScalarPresent(i.state.Some?, TCPState, if i.state.Some? then [i.state.value] else [], 1, []);
    assert TCPAttrs(i) + [] == TCPAttrs(i);
  }

  /** The reader takes the four top-level records off in the order they are written. */
  lemma ConRecordsTaken(c: Con)
    ensures var o, r, t, p := OriginRecords(c), ReplyRecords(c), TimeoutRecords(c), ProtoInfoRecords(c);
      && ConAttrs(c) == o + (r + (t + p))
      && TakeNested(o + (r + (t + p)), TupleOrig)
         == Some((if c.origin.Some? then Some(TupleAttrs(c.origin.value)) else None, r + (t + p)))
      && TakeNested(r + (t + p), TupleReply)
         == Some((if c.reply.Some? then Some(TupleAttrs(c.reply.value)) else None, t + p))
      && TakeScalar(t + p, TimeoutKind, 4)
         == Some((if c.timeout.Some? then Some(BE32(c.timeout.value)) else None, p))
      && TakeNested(p, ProtoInfoKind)
         == Some((if c.protoInfo.Some? then Some(ProtoInfoAttrs(c.protoInfo.value)) else None, []))
  {
    var o, r, t, p := OriginRecords(c), ReplyRecords(c), TimeoutRecords(c), ProtoInfoRecords(c);
    assert o + r + t + p == o + (r + (t + p));
    TakeNestedPresent(c.reply.Some?, TupleReply, if c.reply.Some? then TupleAttrs(c.reply.value) else [], t + p);
    TakeScalarPresent(c.timeout.Some?, TimeoutKind, if c.timeout.Some? then BE32(c.timeout.value) else [], 4, p);
    TakeNestedPresent(c.protoInfo.Some?, ProtoInfoKind, if c.protoInfo.Some? then ProtoInfoAttrs(c.protoInfo.value) else [], []);
    assert p + [] == p;
    OriginTaken(c);
  }

  /** The origin record comes off first: nothing after it has the origin's kind at its head. */
  lemma OriginTaken(c: Con)
    ensures var rest := ReplyRecords(c) + (TimeoutRecords(c) + ProtoInfoRecords(c));
      TakeNested(OriginRecords(c) + rest, TupleOrig)
        == Some((if c.origin.Some? then Some(TupleAttrs(c.origin.value)) else None, rest))
  {
    var rest := ReplyRecords(c) + (TimeoutRecords(c) + ProtoInfoRecords(c));
    assert rest == [] || rest[0].kind != TupleOrig;
    TakeNestedPresent(c.origin.Some?, TupleOrig, if c.origin.Some? then TupleAttrs(c.origin.value) else [], rest);
  }

  lemma ConRoundTrip(c: Con)
    ensures ConOf(ConAttrs(c)) == Some(c)
  {
    ConRecordsTaken(c);
    if c.origin.Some? { TupleRoundTrip(c.origin.value); }
    if c.reply.Some? { TupleRoundTrip(c.reply.value); }
    if c.protoInfo.Some? { ProtoInfoRoundTrip(c.protoInfo.value); }
  }

  /** Decoding the bytes nestAttributes writes gives back the entry: nothing is lost or mixed up. */
  lemma DecodeNestAttributes(c: Con)
    ensures DecodeCon(NestAttributes(c)) == Some(c)
  {
    ConBound(c);
    ReadAllEncoded(ConAttrs(c));
    ConRoundTrip(c);
  }

  /** Two entries with the same attribute bytes are the same entry. */
  lemma NestAttributesInjective(c: Con, d: Con)
    requires NestAttributes(c) == NestAttributes(d)
    ensures c == d
  {
    DecodeNestAttributes(c);
    DecodeNestAttributes(d);
  }

  // ---------------------------------------------------------------------------
  // Order and presence of the top-level records

  /** The position of a top-level kind in TopLevelOrder. */
  function Slot(k: Kind): nat
  {
    if k == TupleOrig then 0 else if k == TupleReply then 1 else if k == TimeoutKind then 2 else 3
  }

  /** The kind of every top-level record, by position: the fields' records in field order. */
  lemma ConAttrsKinds(c: Con)
    ensures var cs := ConAttrs(c);
      var no, nr, nt := |OriginRecords(c)|, |ReplyRecords(c)|, |TimeoutRecords(c)|;
      && no == (if c.origin.Some? then 1 else 0) && nr == (if c.reply.Some? then 1 else 0)
      && nt == (if c.timeout.Some? then 1 else 0)
      && |cs| == no + nr + nt + (if c.protoInfo.Some? then 1 else 0)
      && forall i | 0 <= i < |cs| ::
           cs[i].kind == if i < no then TupleOrig else if i < no + nr then TupleReply
                         else if i < no + nr + nt then TimeoutKind else ProtoInfoKind
  {
    var o, r, t, p := OriginRecords(c), ReplyRecords(c), TimeoutRecords(c), ProtoInfoRecords(c);
    var cs := ConAttrs(c);
    forall i | 0 <= i < |cs|
      ensures cs[i].kind == if i < |o| then TupleOrig else if i < |o| + |r| then TupleReply
                            else if i < |o| + |r| + |t| then TimeoutKind else ProtoInfoKind
    {
      if i < |o| {
        assert cs[i] == o[i];
      } else if i < |o| + |r| {
        assert cs[i] == r[i - |o|];
      } else if i < |o| + |r| + |t| {
        assert cs[i] == t[i - |o| - |r|];
      } else {
        assert cs[i] == p[i - |o| - |r| - |t|];
      }
    }
  }

  /** Records come in the order origin, reply, timeout, proto-info, and are of no other kind. */
  lemma ConAttrsOrder(c: Con)
    ensures var cs := ConAttrs(c);
      && (forall i | 0 <= i < |cs| :: cs[i].kind in TopLevelOrder)
      && (forall i, j | 0 <= i < j < |cs| :: Slot(cs[i].kind) < Slot(cs[j].kind))
  {
    ConAttrsKinds(c);
  }

  /** Each field yields a top-level record exactly when it is set. */
  lemma ConAttrsPresence(c: Con)
    ensures var cs := ConAttrs(c);
      && (c.origin.Some? <==> exists i | 0 <= i < |cs| :: cs[i].kind == TupleOrig)
      && (c.reply.Some? <==> exists i | 0 <= i < |cs| :: cs[i].kind == TupleReply)
      && (c.timeout.Some? <==> exists i | 0 <= i < |cs| :: cs[i].kind == TimeoutKind)
      && (c.protoInfo.Some? <==> exists i | 0 <= i < |cs| :: cs[i].kind == ProtoInfoKind)
  {
    ConAttrsKinds(c);
    var cs := ConAttrs(c);
    var no, nr, nt := |OriginRecords(c)|, |ReplyRecords(c)|, |TimeoutRecords(c)|;
    if c.origin.Some? { assert cs[0].kind == TupleOrig; }
    if c.reply.Some? { assert cs[no].kind == TupleReply; }
    if c.timeout.Some? { assert cs[no + nr].kind == TimeoutKind; }
    if c.protoInfo.Some? { assert cs[no + nr + nt].kind == ProtoInfoKind; }
  }

  // ---------------------------------------------------------------------------
  // Byte layout of fully populated parts

  /** A tuple with both addresses and the protocol number and both ports set. */
  predicate Complete(t: IPTuple)
  {
    && t.src.Some? && t.dst.Some? && t.proto.Some?
    && t.proto.value.number.Some? && t.proto.value.srcPort.Some? && t.proto.value.dstPort.Some?
  }

  /** A 1-byte scalar is declared as 5 and padded with 3 zeros. */
  lemma Scalar1Layout(k: Kind, b: byte)
    requires k < 0x100
    ensures Encode(Scalar(k, [b])) == [0x05, 0x00, k, 0x00, b, 0x00, 0x00, 0x00]
  {
    assert Encode(Scalar(k, [b])) == LE16(5) + LE16(k) + [b] + Zeros(3);
    assert LE16(5) == [0x05, 0x00];
    assert LE16(k) == [k, 0x00];
    assert Zeros(3) == [0x00, 0x00, 0x00];
  }

  /** A 2-byte scalar is declared as 6 and padded with 2 zeros. */
  lemma Scalar2Layout(k: Kind, v: Bytes)
    requires k < 0x100 && |v| == 2
    ensures Encode(Scalar(k, v)) == [0x06, 0x00, k, 0x00] + v + [0x00, 0x00]
  {
    assert Encode(Scalar(k, v)) == LE16(6) + LE16(k) + v + Zeros(2);
    assert LE16(6) + LE16(k) == [0x06, 0x00, k, 0x00];
    assert Zeros(2) == [0x00, 0x00];
  }

  /** A 4-byte scalar is declared as 8 and needs no pad. */
  lemma Scalar4Layout(k: Kind, v: Bytes)
    requires k < 0x100 && |v| == 4
    ensures Encode(Scalar(k, v)) == [0x08, 0x00, k, 0x00] + v
  {
    assert Encode(Scalar(k, v)) == Attr(k, v);
    AttrUnpadded(k, v);
    assert LE16(8) + LE16(k) == [0x08, 0x00, k, 0x00];
  }

  lemma LE16Small(n: u16)
    requires n < 0x100
    ensures LE16(n) == [n, 0x00]
  {
  }

  lemma LE16NestedType(k: Kind)
    requires k < 0x80
    ensures LE16(k + NestedFlag) == [k, 0x80]
  {
  }

  /** A small nested record: declared length 4 plus its body, type with bit 15 set. */
  lemma NestedSmallLayout(k: Kind, cs: seq<Attribute>)
    requires k < 0x80 && HeaderLen + |EncodeAll(cs)| < 0x100
    ensures Encode(Nested(k, cs)) == [HeaderLen + |EncodeAll(cs)|, 0x00, k, 0x80] + EncodeAll(cs)
  {
    var body := EncodeAll(cs);
    NestedBytes(k, cs);
    LE16Small(HeaderLen + |body|);
    LE16NestedType(k);
    assert LE16(HeaderLen + |body|) + LE16(k + NestedFlag) == [HeaderLen + |body|, 0x00, k, 0x80];
  }

  /** The IP block of a tuple with both addresses: 0x14 = 4 + 8 + 8. */
  lemma IPBlockRecords(t: IPTuple)
    requires t.src.Some? && t.dst.Some?
    ensures Encode(Nested(TupleIP, IPAttrs(t)))
         == [0x14, 0x00, 0x01, 0x80]
            + (Encode(Scalar(IPv4Src, t.src.value)) + Encode(Scalar(IPv4Dst, t.dst.value)))
  {
    var s, d := Scalar(IPv4Src, t.src.value), Scalar(IPv4Dst, t.dst.value);
    assert IPAttrs(t) == [s, d];
    EncodeAllPair(s, d);
    Scalar4Layout(IPv4Src, t.src.value);
    Scalar4Layout(IPv4Dst, t.dst.value);
    NestedSmallLayout(TupleIP, [s, d]);
  }

  /** The protocol block of a tuple with number and both ports: 0x1c = 4 + 8 + 8 + 8. */
  lemma ProtoBlockRecords(p: ProtoTuple)
    requires p.number.Some? && p.srcPort.Some? && p.dstPort.Some?
    ensures Encode(Nested(TupleProto, ProtoAttrs(p)))
         == [0x1c, 0x00, 0x02, 0x80]
            + (Encode(Scalar(ProtoNum, [p.number.value]))
               + (Encode(Scalar(ProtoSrcPort, BE16(p.srcPort.value)))
                  + Encode(Scalar(ProtoDstPort, BE16(p.dstPort.value)))))
  {
    var n := Scalar(ProtoNum, [p.number.value]);
    var sp := Scalar(ProtoSrcPort, BE16(p.srcPort.value));
    var dp := Scalar(ProtoDstPort, BE16(p.dstPort.value));
    assert ProtoAttrs(p) == [n, sp, dp];
    EncodeAllTriple(n, sp, dp);
    Scalar1Layout(ProtoNum, p.number.value);
    Scalar2Layout(ProtoSrcPort, BE16(p.srcPort.value));
    Scalar2Layout(ProtoDstPort, BE16(p.dstPort.value));
    NestedSmallLayout(TupleProto, [n, sp, dp]);
  }

  /** A complete tuple record is its header, its IP block and its protocol block: 0x34 = 4 + 20 + 28. */
  lemma TupleRecord(k: Kind, t: IPTuple)
    requires Complete(t) && k < 0x80
    ensures Encode(Nested(k, TupleAttrs(t)))
         == [0x34, 0x00, k, 0x80]
            + (Encode(Nested(TupleIP, IPAttrs(t))) + Encode(Nested(TupleProto, ProtoAttrs(t.proto.value))))
  {
    var ip := Nested(TupleIP, IPAttrs(t));
    var pr := Nested(TupleProto, ProtoAttrs(t.proto.value));
    assert TupleAttrs(t) == [ip, pr];
    EncodeAllPair(ip, pr);
    IPBlockRecords(t);
    ProtoBlockRecords(t.proto.value);
    Scalar4Layout(IPv4Src, t.src.value);
    Scalar4Layout(IPv4Dst, t.dst.value);
    Scalar1Layout(ProtoNum, t.proto.value.number.value);
    Scalar2Layout(ProtoSrcPort, BE16(t.proto.value.srcPort.value));
    Scalar2Layout(ProtoDstPort, BE16(t.proto.value.dstPort.value));
    NestedSmallLayout(k, [ip, pr]);
  }

  /**
   * The 52-byte record of a complete tuple: headers little-endian, the addresses as they
   * are, ports big-endian, the 1-byte protocol number declared as 5 and padded with 3 zeros.
   */
  lemma CompleteTupleLayout(k: Kind, t: IPTuple)
    requires Complete(t) && k < 0x80
    ensures Encode(Nested(k, TupleAttrs(t)))
         == [0x34, 0x00, k, 0x80]
            + (([0x14, 0x00, 0x01, 0x80]
                + (([0x08, 0x00, 0x01, 0x00] + t.src.value) + ([0x08, 0x00, 0x02, 0x00] + t.dst.value)))
               + ([0x1c, 0x00, 0x02, 0x80]
                  + ([0x05, 0x00, 0x01, 0x00, t.proto.value.number.value, 0x00, 0x00, 0x00]
                     + (([0x06, 0x00, 0x02, 0x00] + BE16(t.proto.value.srcPort.value) + [0x00, 0x00])
                        + ([0x06, 0x00, 0x03, 0x00] + BE16(t.proto.value.dstPort.value) + [0x00, 0x00])))))
  {
    TupleRecord(k, t);
    IPBlockRecords(t);
    ProtoBlockRecords(t.proto.value);
    Scalar4Layout(IPv4Src, t.src.value);
    Scalar4Layout(IPv4Dst, t.dst.value);
    Scalar1Layout(ProtoNum, t.proto.value.number.value);
    Scalar2Layout(ProtoSrcPort, BE16(t.proto.value.srcPort.value));
    Scalar2Layout(ProtoDstPort, BE16(t.proto.value.dstPort.value));
  }

  /** The reply direction of a tuple: addresses and ports swapped. */
  function Mirror(t: IPTuple): IPTuple
  {
    var proto := if t.proto.Some?
      then Some(ProtoTuple(t.proto.value.number, t.proto.value.dstPort, t.proto.value.srcPort))
      else None;
    IPTuple(t.dst, t.src, proto)
  }

  /**
   * The record of a mirrored complete tuple is laid out like the original with the two
   * address values exchanged (offsets 12 and 20) and the two port values exchanged
   * (offsets 40 and 48); every header and pad byte is the same.
   */
  lemma MirrorLayout(k: Kind, t: IPTuple)
    requires Complete(t) && k < 0x80
    ensures Encode(Nested(k, TupleAttrs(Mirror(t))))
         == [0x34, 0x00, k, 0x80]
            + (([0x14, 0x00, 0x01, 0x80]
                + (([0x08, 0x00, 0x01, 0x00] + t.dst.value) + ([0x08, 0x00, 0x02, 0x00] + t.src.value)))
               + ([0x1c, 0x00, 0x02, 0x80]
                  + ([0x05, 0x00, 0x01, 0x00, t.proto.value.number.value, 0x00, 0x00, 0x00]
                     + (([0x06, 0x00, 0x02, 0x00] + BE16(t.proto.value.dstPort.value) + [0x00, 0x00])
                        + ([0x06, 0x00, 0x03, 0x00] + BE16(t.proto.value.srcPort.value) + [0x00, 0x00])))))
  {
    CompleteTupleLayout(k, Mirror(t));
  }

  lemma TimeoutLayout(v: u32)
    ensures Encode(Scalar(TimeoutKind, BE32(v))) == [0x08, 0x00, 0x07, 0x00] + BE32(v)
  {
    Scalar4Layout(TimeoutKind, BE32(v));
  }

  /** The TCP block 0x0c = 4 + 8 holding the state record. */
  lemma TCPBlockLayout(s: byte)
    ensures Encode(Nested(ProtoInfoTCP, TCPAttrs(TCPInfo(Some(s)))))
         == [0x0c, 0x00, 0x01, 0x80] + [0x05, 0x00, 0x01, 0x00, s, 0x00, 0x00, 0x00]
  {
    var st := Scalar(TCPState, [s]);
    assert TCPAttrs(TCPInfo(Some(s))) == [st];
    EncodeAllSingle(st);
    Scalar1Layout(TCPState, s);
    NestedSmallLayout(ProtoInfoTCP, [st]);
  }

  /** Protocol info 0x10 = 4 + 12 holding the TCP block. */
  lemma TCPStateLayout(s: byte)
    ensures Encode(Nested(ProtoInfoKind, ProtoInfoAttrs(TCP(TCPInfo(Some(s))))))
         == [0x10, 0x00, 0x04, 0x80]
            + ([0x0c, 0x00, 0x01, 0x80] + [0x05, 0x00, 0x01, 0x00, s, 0x00, 0x00, 0x00])
  {
    var tcp := Nested(ProtoInfoTCP, TCPAttrs(TCPInfo(Some(s))));
    assert ProtoInfoAttrs(TCP(TCPInfo(Some(s)))) == [tcp];
    EncodeAllSingle(tcp);
    TCPBlockLayout(s);
    NestedSmallLayout(ProtoInfoKind, [tcp]);
  }
}
