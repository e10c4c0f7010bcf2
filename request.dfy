/**
 * The netlink messages the client builds for Create and Flush (and the request testMarshal
 * assembles): header type = subsystem << 8 | message code, header flags, and data = the
 * 4-byte nfnetlink sub-header followed by the attribute bytes of the entry.
 */
module Messages {
  import opened Wire
  import opened ConntrackEntry
  import Attributes

  datatype Family = IPv4 | IPv6

  /** AF_INET and AF_INET6. */
  function FamilyCode(f: Family): (b: byte)
  {
    match f
    case IPv4 => 2
    case IPv6 => 10
  }

  /** A table is named by its nfnetlink subsystem id. */
  datatype Table = Conntrack | Expected

  function Subsystem(t: Table): (id: byte)
  {
    match t
    case Conntrack => 1
    case Expected => 2
  }

  /** NFNL_SUBSYS_CTNETLINK, also written as the resource id of a create request. */
  const SubsysCtnetlink: u16 := 1
  /** NFNETLINK_V0 */
  const NfnetlinkV0: byte := 0
  /** IPCTNL_MSG_CT_NEW and IPCTNL_MSG_CT_DELETE */
  const MsgCtNew: byte := 0
  const MsgCtDelete: byte := 2

  // Netlink header flags (NLM_F_REQUEST, NLM_F_ACK, NLM_F_EXCL, NLM_F_CREATE)
  const Request: bv16 := 0x001
  const Acknowledge: bv16 := 0x004
  const Excl: bv16 := 0x200
  const CreateFlag: bv16 := 0x400

  /** NLMSG_HDRLEN: the fixed netlink header in front of the data. */
  const HeaderSize: nat := 16

  datatype Header = Header(length: u32, typ: u16, flags: bv16, sequence: u32, pid: u32)
  datatype Message = Message(header: Header, data: Bytes)

  /** putExtraHeader: address family, version, then the resource id in network order. */
  function ExtraHeader(family: byte, version: byte, resId: u16): (r: Bytes)
    ensures |r| == 4 && r[0] == family && r[1] == version && ReadBE16(r[2..4]) == resId
  {
    [family, version] + BE16(resId)
  }

  /** The fields of a sub-header at the front of `b`. */
  function ReadExtraHeader(b: Bytes): Option<(byte, byte, u16)>
  {
    if |b| < 4 then None else Some((b[0], b[1], ReadBE16(b[2..4])))
  }

  lemma ExtraHeaderRoundTrip(family: byte, version: byte, resId: u16, rest: Bytes)
    ensures ReadExtraHeader(ExtraHeader(family, version, resId) + rest) == Some((family, version, resId))
  {
    var b := ExtraHeader(family, version, resId) + rest;
    assert b[2..4] == ExtraHeader(family, version, resId)[2..4];
  }

  function MessageType(t: Table, code: byte): (typ: u16)
    ensures typ / 0x100 == Subsystem(t) && typ % 0x100 == code
  {
    Subsystem(t) as int * 0x100 + code as int
  }

  /**
   * Flush: a delete of the whole table, carrying only the sub-header with resource id 0.
   * Header length, sequence and port id are left for the transport to fill in.
   */
  function FlushRequest(t: Table, f: Family): (m: Message)
    ensures m.header.typ / 0x100 == Subsystem(t) && m.header.typ % 0x100 == MsgCtDelete
    ensures m.header.flags == Request | Acknowledge
    ensures m.data == [FamilyCode(f), NfnetlinkV0, 0, 0]
  {
    Message(Header(0, MessageType(t, MsgCtDelete), Request | Acknowledge, 0, 0),
            ExtraHeader(FamilyCode(f), NfnetlinkV0, 0))
  }

  /**
   * Create: a new entry that must not exist yet, carrying the sub-header with resource id
   * NFNL_SUBSYS_CTNETLINK followed by the attribute bytes of the entry.
   */
  function CreateRequest(t: Table, f: Family, c: Con): (m: Message)
    ensures m.header.typ / 0x100 == Subsystem(t) && m.header.typ % 0x100 == MsgCtNew
    ensures m.header.flags == Request | CreateFlag | Acknowledge | Excl
    ensures |m.data| == 4 + |NestAttributes(c)|
    ensures m.data[..4] == [FamilyCode(f), NfnetlinkV0, 0x00, 0x01]
    ensures m.data[4..] == NestAttributes(c)
  {
    Message(Header(0, MessageType(t, MsgCtNew), Request | CreateFlag | Acknowledge | Excl, 0, 0),
            ExtraHeader(FamilyCode(f), NfnetlinkV0, SubsysCtnetlink) + NestAttributes(c))
  }

  /** testMarshal: the same data as a create request, header type t << 8, flags Request|Acknowledge. */
  function MarshalRequest(t: Table, f: Family, c: Con): (m: Message)
    ensures m.data == CreateRequest(t, f, c).data
    ensures m.header.typ == CreateRequest(t, f, c).header.typ
    ensures m.header.flags == Request | Acknowledge
    ensures m.header.flags | CreateFlag | Excl == CreateRequest(t, f, c).header.flags
  {
    Message(Header(0, Subsystem(t) as int * 0x100, Request | Acknowledge, 0, 0),
            ExtraHeader(FamilyCode(f), NfnetlinkV0, SubsysCtnetlink) + NestAttributes(c))
  }

  /**
   * What the transport does on send: it records the length of the whole message
   * (header plus data, rounded up to 4) and stamps its own sequence number and port id.
   */
  function Send(m: Message, sequence: u32, pid: u32): (s: Message)
    ensures s.data == m.data && s.header.typ == m.header.typ && s.header.flags == m.header.flags
    ensures s.header.sequence == sequence && s.header.pid == pid
    ensures |m.data| % 4 == 0 && HeaderSize + |m.data| < 0x1_0000_0000
            ==> s.header.length == HeaderSize + |m.data|
  {
    Message(m.header.(length := Align(HeaderSize + |m.data|) % 0x1_0000_0000,
                      sequence := sequence, pid := pid),
            m.data)
  }

  // ---------------------------------------------------------------------------
  // Reading a create request back

  /** The family, the resource id and the entry carried by create-request data. */
  function ReadCreateData(b: Bytes): Option<(byte, u16, Con)>
  {
    var (family, version, resId) :- ReadExtraHeader(b);
    if version != NfnetlinkV0 then None
    else
      var c :- DecodeCon(b[4..]);
      Some((family, resId, c))
  }

  /** The data of a create request carries its family and its entry, both recoverable. */
  lemma CreateDataRoundTrip(t: Table, f: Family, c: Con)
    ensures ReadCreateData(CreateRequest(t, f, c).data) == Some((FamilyCode(f), SubsysCtnetlink, c))
  {
    var b := CreateRequest(t, f, c).data;
    ExtraHeaderRoundTrip(FamilyCode(f), NfnetlinkV0, SubsysCtnetlink, NestAttributes(c));
    DecodeNestAttributes(c);
  }

  /** Different entries, or different families, never give the same create-request data. */
  lemma CreateDataInjective(t: Table, f: Family, c: Con, g: Family, d: Con)
    requires CreateRequest(t, f, c).data == CreateRequest(t, g, d).data
    ensures f == g && c == d
  {
    CreateDataRoundTrip(t, f, c);
    CreateDataRoundTrip(t, g, d);
  }

  /**
   * The flag sets as numbers: Request|Acknowledge is 0x005 for flush and testMarshal;
   * create adds Create and Excl, giving 0x605, so it fails if the entry exists.
   */
  lemma FlagValues(t: Table, f: Family, c: Con)
    ensures FlushRequest(t, f).header.flags == 0x005
    ensures CreateRequest(t, f, c).header.flags == 0x605
    ensures MarshalRequest(t, f, c).header.flags == 0x005
    ensures CreateRequest(t, f, c).header.flags & Excl != 0
    ensures FlushRequest(t, f).header.flags & (CreateFlag | Excl) == 0
  {
  }

  /** On the wire: 20 bytes for flush and an empty create, 148 for the full fixture entry. */
  lemma SentLength(t: Table, f: Family, c: Con, sequence: u32, pid: u32)
    ensures Send(FlushRequest(t, f), sequence, pid).header.length == 20
    ensures Send(CreateRequest(t, f, c), sequence, pid).header.length
         == HeaderSize + 4 + |NestAttributes(c)| <= 148
  {
    var m := CreateRequest(t, f, c);
    var n := |NestAttributes(c)|;
    assert |m.data| == 4 + n && n % 4 == 0;
    Attributes.SumAligned(4, n);
    assert FlushRequest(t, f).data == [FamilyCode(f), NfnetlinkV0, 0, 0];
  }
}
