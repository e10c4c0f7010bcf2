/**
 * The fixtures of TestFlush and TestCreate and the request handler their fake connection
 * runs: the handler is given what the client sent and compares it with the expected
 * messages (data length, header type, header flags, then the data byte by byte).
 */
module Fixtures {
  import opened Wire
  import opened Attributes
  import opened ConntrackEntry
  import opened Messages

  // ---------------------------------------------------------------------------
  // Expected messages, as the test tables write them. `pid` is the port id of the
  // fake connection; the sequence number is overwritten by the handler.

  function FlushWant(familyCode: byte, pid: u32): Message
  {
    Message(Header(20, 0x0102, Request | Acknowledge, 0, pid), [familyCode, 0x00, 0x00, 0x00])
  }

  datatype FlushCase = FlushCase(name: string, family: Family, want: seq<Message>)

  function FlushTests(pid: u32): seq<FlushCase>
  {
    [ FlushCase("Flush IPv4", IPv4, [FlushWant(0x02, pid)]),
      FlushCase("Flush IPv6", IPv6, [FlushWant(0x0A, pid)]) ]
  }

  const CreateFlags: bv16 := Request | CreateFlag | Acknowledge | Excl

  /** The entry of libnetfilter_conntrack's conntrack_create.c example. */
  const SrcIP: IPv4 := [1, 1, 1, 1]
  const DstIP: IPv4 := [2, 2, 2, 2]
  const ExampleProto: byte := 17
  const ExampleSrcPort: u16 := 22
  const ExampleDstPort: u16 := 10
  const ExampleTimeout: u32 := 100
  const ExampleTCPState: byte := 8

  const ExampleOrigin: IPTuple :=
    IPTuple(Some(SrcIP), Some(DstIP),
            Some(ProtoTuple(Some(ExampleProto), Some(ExampleSrcPort), Some(ExampleDstPort))))
  const ExampleReply: IPTuple :=
    IPTuple(Some(DstIP), Some(SrcIP),
            Some(ProtoTuple(Some(ExampleProto), Some(ExampleDstPort), Some(ExampleSrcPort))))

  const CreateExample: Con :=
    Con(Some(ExampleOrigin), Some(ExampleReply), Some(ExampleTimeout),
        Some(TCP(TCPInfo(Some(ExampleTCPState)))))

  const NoAttributes: Con := Con(None, None, None, None)

  // The expected data of the conntrack_create.c case, record by record in the order it is
  // written: the sub-header, the origin tuple, the reply tuple, the timeout and the TCP state.
  // Each record is grouped as its header followed by its children.

  const OriginIPBlock: Bytes :=
    [0x14, 0x00, 0x01, 0x80]
    + (([0x08, 0x00, 0x01, 0x00] + [0x01, 0x01, 0x01, 0x01])
       + ([0x08, 0x00, 0x02, 0x00] + [0x02, 0x02, 0x02, 0x02]))
  const OriginProtoBlock: Bytes :=
    [0x1c, 0x00, 0x02, 0x80]
    + ([0x05, 0x00, 0x01, 0x00, 0x11, 0x00, 0x00, 0x00]
       + (([0x06, 0x00, 0x02, 0x00] + [0x00, 0x16] + [0x00, 0x00])
          + ([0x06, 0x00, 0x03, 0x00] + [0x00, 0x0a] + [0x00, 0x00])))
  const OriginRecord: Bytes := [0x34, 0x00, 0x01, 0x80] + (OriginIPBlock + OriginProtoBlock)

  const ReplyIPBlock: Bytes :=
    [0x14, 0x00, 0x01, 0x80]
    + (([0x08, 0x00, 0x01, 0x00] + [0x02, 0x02, 0x02, 0x02])
       + ([0x08, 0x00, 0x02, 0x00] + [0x01, 0x01, 0x01, 0x01]))
  const ReplyProtoBlock: Bytes :=
    [0x1c, 0x00, 0x02, 0x80]
    + ([0x05, 0x00, 0x01, 0x00, 0x11, 0x00, 0x00, 0x00]
       + (([0x06, 0x00, 0x02, 0x00] + [0x00, 0x0a] + [0x00, 0x00])
          + ([0x06, 0x00, 0x03, 0x00] + [0x00, 0x16] + [0x00, 0x00])))
  const ReplyRecord: Bytes := [0x34, 0x00, 0x02, 0x80] + (ReplyIPBlock + ReplyProtoBlock)

  const TimeoutRecord: Bytes := [0x08, 0x00, 0x07, 0x00] + [0x00, 0x00, 0x00, 0x64]
  const ProtoInfoRecord: Bytes :=
    [0x10, 0x00, 0x04, 0x80] + ([0x0c, 0x00, 0x01, 0x80] + [0x05, 0x00, 0x01, 0x00, 0x08, 0x00, 0x00, 0x00])

  const CreateExampleData: Bytes :=
    [0x02, 0x00, 0x00, 0x01] + (OriginRecord + ReplyRecord + TimeoutRecord + ProtoInfoRecord)

  datatype CreateCase = CreateCase(name: string, attributes: Con, want: seq<Message>)

  /** The create table as written, including the header length 80 of the second case. */
  function CreateTests(pid: u32): seq<CreateCase>
  {
    [ CreateCase("noAttributes", NoAttributes,
                 [Message(Header(20, 0x0100, CreateFlags, 0, pid), [0x02, 0x00, 0x00, 0x01])]),
      CreateCase("conntrack_create.c", CreateExample,
                 [Message(Header(80, 0x0100, CreateFlags, 0, pid), CreateExampleData)]) ]
  }

  /** The create table with the header length the transport actually records (148). */
  function CorrectedCreateTests(pid: u32): seq<CreateCase>
  {
    var t := CreateTests(pid);
    [ t[0], CreateCase(t[1].name, t[1].attributes,
                       [t[1].want[0].(header := t[1].want[0].header.(length := 148))]) ]
  }

  /** The corrected table differs from the written one in the second header length only. */
  lemma CorrectedCreateTestsDiffer(pid: u32)
    ensures |CorrectedCreateTests(pid)| == |CreateTests(pid)|
    ensures forall k | 0 <= k < |CreateTests(pid)| ::
      var tc, fixed := CreateTests(pid)[k], CorrectedCreateTests(pid)[k];
      && fixed.name == tc.name && fixed.attributes == tc.attributes
      && |fixed.want| == |tc.want| == 1
      && (fixed.want[0] == tc.want[0] <==> k == 0)
      && fixed.want[0] == tc.want[0].(header := tc.want[0].header.(length := fixed.want[0].header.length))
  {
  }

  // ---------------------------------------------------------------------------
  // The handler of the fake connection

  datatype Failure =
    | TooManyRequests(count: nat)
    | CountMismatch
    | DataLength(index: nat)
    | HeaderType(index: nat)
    | HeaderFlags(index: nat)
    | DataByte(index: nat, offset: nat)

  /** Pass, a t.Fatalf with its reason, or the index panic of an empty expectation list. */
  datatype Outcome = Pass | Fatal(failure: Failure) | IndexOutOfRange

  /**
   * What the handler compares: data length, header type, header flags and every data
   * byte. The header length, sequence number and port id are not compared.
   */
  predicate Agrees(got: Message, want: Message)
  {
    && |got.data| == |want.data|
    && got.header.typ == want.header.typ
    && got.header.flags == want.header.flags
    && got.data == want.data
  }

  /** The requests a handler lets through: none at all, or one agreeing with the only expected message. */
  predicate Accepts(reqs: seq<Message>, want: seq<Message>)
  {
    || |reqs| == 0
    || (|reqs| == 1 && |want| == 1 && Agrees(reqs[0], want[0]))
  }

  /** `j` is the first offset at which `a` and `b` differ. */
  predicate FirstMismatchAt(a: Bytes, b: Bytes, j: nat)
  {
    j < |a| && j < |b| && a[j] != b[j] && a[..j] == b[..j]
  }

  /**
   * The nltest callback of TestFlush and TestCreate: no request is fine; more than one is
   * fatal; the sequence number of the first expected message is set to that of the
   * request; then the counts, and for each request its data length, type, flags and data
   * bytes, are compared in that order, the first difference being fatal.
   */
  method HandleRequests(reqs: seq<Message>, want: seq<Message>) returns (outcome: Outcome)
    ensures outcome == Pass <==> Accepts(reqs, want)
    ensures |reqs| > 1 ==> outcome == Fatal(TooManyRequests(|reqs|))
    ensures |reqs| == 1 && |want| == 0 ==> outcome == IndexOutOfRange
    ensures |reqs| == 1 && |want| > 1 ==> outcome == Fatal(CountMismatch)
    ensures |reqs| == 1 && |want| == 1 ==>
      var got, exp := reqs[0], want[0];
      if |got.data| != |exp.data| then outcome == Fatal(DataLength(0))
      else if got.header.typ != exp.header.typ then outcome == Fatal(HeaderType(0))
      else if got.header.flags != exp.header.flags then outcome == Fatal(HeaderFlags(0))
      else (|| outcome == Pass
            || (&& outcome.Fatal? && outcome.failure.DataByte? && outcome.failure.index == 0
                && FirstMismatchAt(got.data, exp.data, outcome.failure.offset)))
  {
    if |reqs| == 0 {
      return Pass;
    }
    if |reqs| != 1 {
      return Fatal(TooManyRequests(|reqs|));
    }
    if |want| == 0 {
      return IndexOutOfRange;
    }
    // the sequence number is copied over so that it never differs
    var expected := want[0 := want[0].(header := want[0].header.(sequence := reqs[0].header.sequence))];
    if |reqs| != |expected| {
      return Fatal(CountMismatch);
    }
    var i := 0;
    while i < |reqs|
      invariant 0 <= i <= |reqs|
      invariant forall k | 0 <= k < i :: Agrees(reqs[k], expected[k])
    {
      var got, exp := reqs[i], expected[i];
      if |got.data| != |exp.data| {
        return Fatal(DataLength(i));
      }
      if got.header.typ != exp.header.typ {
        return Fatal(HeaderType(i));
      }
      if got.header.flags != exp.header.flags {
        return Fatal(HeaderFlags(i));
      }
      var j := 0;
      while j < |got.data|
        invariant 0 <= j <= |got.data|
        invariant got.data[..j] == exp.data[..j]
      {
        if got.data[j] != exp.data[j] {
          return Fatal(DataByte(i, j));
        }
        assert got.data[..j + 1] == got.data[..j] + [got.data[j]];
        assert exp.data[..j + 1] == exp.data[..j] + [exp.data[j]];
        j := j + 1;
      }
      assert got.data == got.data[..j] && exp.data == exp.data[..j];
      i := i + 1;
    }
    return Pass;
  }

  /** Agreement is equality up to the header length, sequence number and port id. */
  lemma AgreesIsEqualityUpToCounters(got: Message, want: Message)
    ensures Agrees(got, want)
        <==> got == want.(header := want.header.(length := got.header.length,
                                                 sequence := got.header.sequence,
                                                 pid := got.header.pid))
  {
  }

  // ---------------------------------------------------------------------------
  // The fixtures against the model

  /** Both flush requests are the expected messages exactly, header length 20 included. */
  lemma FlushFixturesExact(sequence: u32, pid: u32)
    ensures forall k | 0 <= k < |FlushTests(pid)| ::
      var tc := FlushTests(pid)[k];
      Send(FlushRequest(Conntrack, tc.family), sequence, pid)
        == tc.want[0].(header := tc.want[0].header.(sequence := sequence))
  {
    forall k | 0 <= k < |FlushTests(pid)|
      ensures var tc := FlushTests(pid)[k];
        Send(FlushRequest(Conntrack, tc.family), sequence, pid)
          == tc.want[0].(header := tc.want[0].header.(sequence := sequence))
    {
      var tc := FlushTests(pid)[k];
      SentLength(Conntrack, tc.family, NoAttributes, sequence, pid);
    }
  }

  /** An entry with no fields set contributes no attribute bytes. */
  lemma NoAttributesEmpty()
    ensures NestAttributes(NoAttributes) == []
  {
    assert ConAttrs(NoAttributes) == [];
  }

  /** The origin tuple of the example encodes to the first 52 attribute bytes of the fixture. */
  lemma OriginRecordMatches()
    ensures Encode(Nested(TupleOrig, TupleAttrs(ExampleOrigin))) == OriginRecord
  {
    CompleteTupleLayout(TupleOrig, ExampleOrigin);
    assert BE16(ExampleSrcPort) == [0x00, 0x16];
    assert BE16(ExampleDstPort) == [0x00, 0x0a];
  }

  /** The reply tuple of the example encodes to the next 52 bytes. */
  lemma ReplyRecordMatches()
    ensures Encode(Nested(TupleReply, TupleAttrs(ExampleReply))) == ReplyRecord
  {
    CompleteTupleLayout(TupleReply, ExampleReply);
    assert BE16(ExampleSrcPort) == [0x00, 0x16];
    assert BE16(ExampleDstPort) == [0x00, 0x0a];
  }

  /** Timeout 100 in network order, then protocol info holding TCP state 8. */
  lemma TailRecordsMatch()
    ensures Encode(Scalar(TimeoutKind, BE32(ExampleTimeout))) == TimeoutRecord
    ensures Encode(Nested(ProtoInfoKind, ProtoInfoAttrs(TCP(TCPInfo(Some(ExampleTCPState))))))
         == ProtoInfoRecord
  {
    assert BE32(ExampleTimeout) == [0x00, 0x00, 0x00, 0x64];
    TimeoutLayout(ExampleTimeout);
    TCPStateLayout(ExampleTCPState);
  }

  /**
   * The conntrack_create.c entry encodes to the 128 attribute bytes of the fixture: the
   * origin tuple (52 bytes), the reply tuple (52), the timeout (8) and the TCP state (16).
   */
  lemma CreateExampleAttributes()
    ensures NestAttributes(CreateExample) == OriginRecord + ReplyRecord + TimeoutRecord + ProtoInfoRecord
  {
    var o := Nested(TupleOrig, TupleAttrs(ExampleOrigin));
    var r := Nested(TupleReply, TupleAttrs(ExampleReply));
    var t := Scalar(TimeoutKind, BE32(ExampleTimeout));
    var p := Nested(ProtoInfoKind, ProtoInfoAttrs(TCP(TCPInfo(Some(ExampleTCPState)))));
    assert ConAttrs(CreateExample) == [o] + [r] + [t] + [p];
    EncodeAllAppend([o] + [r] + [t], [p]);
    EncodeAllAppend([o] + [r], [t]);
    EncodeAllAppend([o], [r]);
    EncodeAllSingle(o);
    EncodeAllSingle(r);
    EncodeAllSingle(t);
    EncodeAllSingle(p);
    OriginRecordMatches();
    ReplyRecordMatches();
    TailRecordsMatch();
  }

  /**
   * The reply tuple of the example is the mirrored origin, so its record is the origin
   * record with the two addresses and the two ports swapped.
   */
  lemma CreateExampleReplyMirrored()
    ensures CreateExample.reply == Some(Mirror(CreateExample.origin.value))
    ensures ReplyRecord == Encode(Nested(TupleReply, TupleAttrs(Mirror(ExampleOrigin))))
  {
    var m := Mirror(ExampleOrigin);
    assert m == ExampleReply;
    ReplyRecordMatches();
  }

  /** Create data of both create cases: the sub-header 02 00 00 01, then the attribute bytes. */
  lemma CreateRequestData()
    ensures CreateRequest(Conntrack, IPv4, NoAttributes).data == [0x02, 0x00, 0x00, 0x01]
    ensures CreateRequest(Conntrack, IPv4, CreateExample).data == CreateExampleData
  {
    assert ExtraHeader(FamilyCode(IPv4), NfnetlinkV0, SubsysCtnetlink) == [0x02, 0x00, 0x00, 0x01];
    NoAttributesEmpty();
    CreateExampleAttributes();
  }

  /** 4 bytes of sub-header, two tuples of 52 bytes, 8 bytes of timeout and 16 of protocol info. */
  lemma CreateExampleDataLength()
    ensures |CreateExampleData| == 132
  {
    assert |OriginIPBlock| == |ReplyIPBlock| == 20;
    assert |OriginProtoBlock| == |ReplyProtoBlock| == 28;
    assert |OriginRecord| == |ReplyRecord| == 52;
    assert |TimeoutRecord| == 8 && |ProtoInfoRecord| == 16;
  }

  /** The empty create request on the wire: 20 bytes, type 0x0100, flags 0x605. */
  lemma EmptyCreateSent(sequence: u32, pid: u32)
    ensures Send(CreateRequest(Conntrack, IPv4, NoAttributes), sequence, pid)
         == Message(Header(20, 0x0100, CreateFlags, sequence, pid), [0x02, 0x00, 0x00, 0x01])
  {
    CreateRequestData();
    SentLength(Conntrack, IPv4, NoAttributes, sequence, pid);
  }

  /** The conntrack_create.c request on the wire: 148 bytes, type 0x0100, flags 0x605. */
  lemma ExampleCreateSent(sequence: u32, pid: u32)
    ensures Send(CreateRequest(Conntrack, IPv4, CreateExample), sequence, pid)
         == Message(Header(148, 0x0100, CreateFlags, sequence, pid), CreateExampleData)
  {
    CreateRequestData();
    CreateExampleDataLength();
    SentLength(Conntrack, IPv4, CreateExample, sequence, pid);
  }

  /**
   * Each create request carries exactly the expected data, type and flags; the first case
   * matches in its header length too, the second does not (see CreateLengthAsWritten).
   */
  lemma CreateCaseAgrees(k: nat, sequence: u32, pid: u32)
    requires k < |CreateTests(pid)|
    ensures var tc := CreateTests(pid)[k];
      && |tc.want| == 1
      && Agrees(Send(CreateRequest(Conntrack, IPv4, tc.attributes), sequence, pid), tc.want[0])
  {
    var tc := CreateTests(pid)[k];
    if k == 0 {
      assert tc.attributes == NoAttributes;
      assert tc.want == [Message(Header(20, 0x0100, CreateFlags, 0, pid), [0x02, 0x00, 0x00, 0x01])];
      EmptyCreateSent(sequence, pid);
    } else {
      assert tc.attributes == CreateExample;
      assert tc.want == [Message(Header(80, 0x0100, CreateFlags, 0, pid), CreateExampleData)];
      ExampleCreateSent(sequence, pid);
    }
  }

  /** The handler lets each create request through against its case's expectation. */
  lemma CreateCaseAccepted(k: nat, sequence: u32, pid: u32)
    requires k < |CreateTests(pid)|
    ensures var tc := CreateTests(pid)[k];
      Accepts([Send(CreateRequest(Conntrack, IPv4, tc.attributes), sequence, pid)], tc.want)
  {
    CreateCaseAgrees(k, sequence, pid);
  }

  /**
   * As written: the second create fixture declares a header length of 80, while its
   * message is 16 + 132 = 148 bytes long; the handler never compares the length, so the
   * case passes all the same.
   */
  lemma CreateLengthAsWritten(sequence: u32, pid: u32)
    ensures var tc := CreateTests(pid)[1];
      var sent := Send(CreateRequest(Conntrack, IPv4, tc.attributes), sequence, pid);
      && tc.want[0].header.length == 80
      && sent.header.length == HeaderSize + |tc.want[0].data| == 148
      && sent.header.length != tc.want[0].header.length
      && Agrees(sent, tc.want[0])
  {
    CreateExampleDataLength();
    ExampleCreateSent(sequence, pid);
  }

  /** Corrected: with length 148 each create request is the expected message exactly. */
  lemma CorrectedCaseExact(k: nat, sequence: u32, pid: u32)
    requires k < |CorrectedCreateTests(pid)|
    ensures var tc := CorrectedCreateTests(pid)[k];
      && |tc.want| == 1
      && Send(CreateRequest(Conntrack, IPv4, tc.attributes), sequence, pid)
         == tc.want[0].(header := tc.want[0].header.(sequence := sequence))
  {
    var tc := CorrectedCreateTests(pid)[k];
    if k == 0 {
      assert tc.attributes == NoAttributes;
      assert tc.want == [Message(Header(20, 0x0100, CreateFlags, 0, pid), [0x02, 0x00, 0x00, 0x01])];
      EmptyCreateSent(sequence, pid);
    } else {
      assert tc.attributes == CreateExample;
      assert tc.want == [Message(Header(148, 0x0100, CreateFlags, 0, pid), CreateExampleData)];
      ExampleCreateSent(sequence, pid);
    }
  }

  /** testMarshal builds the create data of the fixture, with header type 1 << 8 and flags 0x005. */
  lemma MarshalFixture()
    ensures var m := MarshalRequest(Conntrack, IPv4, CreateExample);
      m.data == CreateExampleData && m.header.typ == 0x0100 && m.header.flags == 0x005
  {
    CreateRequestData();
  }

  // ---------------------------------------------------------------------------
  // The two test functions

  /** One t.Run subtest of TestFlush: flush the conntrack table for the case's family. */
  method FlushSubtest(k: nat, sequence: u32, pid: u32) returns (outcome: Outcome)
    requires k < |FlushTests(pid)|
    ensures outcome == Pass
  {
    var tc := FlushTests(pid)[k];
    FlushFixturesExact(sequence, pid);
    var sent := Send(FlushRequest(Conntrack, tc.family), sequence, pid);
    outcome := HandleRequests([sent], tc.want);
  }

  /** TestFlush: each case flushes the conntrack table for its family through the handler. */
  method RunFlushTests(sequence: u32, pid: u32) returns (outcomes: seq<Outcome>)
    ensures |outcomes| == |FlushTests(pid)|
    ensures forall k | 0 <= k < |outcomes| :: outcomes[k] == Pass
  {
    var n := |FlushTests(pid)|;
    outcomes := [];
    var i := 0;
    while i < n
      invariant 0 <= i <= n
      invariant |outcomes| == i
      invariant forall k | 0 <= k < i :: outcomes[k] == Pass
    {
      var outcome := FlushSubtest(i, sequence, pid);
      outcomes := outcomes + [outcome];
      i := i + 1;
    }
  }

  /** One t.Run subtest of TestCreate: create the case's entry in the IPv4 conntrack table. */
  method CreateSubtest(k: nat, sequence: u32, pid: u32) returns (outcome: Outcome)
    requires k < |CreateTests(pid)|
    ensures outcome == Pass
  {
    var tc := CreateTests(pid)[k];
    CreateCaseAccepted(k, sequence, pid);
    var sent := Send(CreateRequest(Conntrack, IPv4, tc.attributes), sequence, pid);
    outcome := HandleRequests([sent], tc.want);
  }

  /** TestCreate: each case creates its entry through the handler. */
  method RunCreateTests(sequence: u32, pid: u32) returns (outcomes: seq<Outcome>)
    ensures |outcomes| == |CreateTests(pid)|
    ensures forall k | 0 <= k < |outcomes| :: outcomes[k] == Pass
  {
    var n := |CreateTests(pid)|;
    outcomes := [];
    var i := 0;
    while i < n
      invariant 0 <= i <= n
      invariant |outcomes| == i
      invariant forall k | 0 <= k < i :: outcomes[k] == Pass
    {
      var outcome := CreateSubtest(i, sequence, pid);
      outcomes := outcomes + [outcome];
      i := i + 1;
    }
  }
}
