# go-conntrack request serialiser, in Dafny

This project models the request side of the ctnetlink client of go-conntrack. It covers:

- how a conntrack entry (`Con`: origin tuple, reply tuple, timeout, TCP protocol info) becomes a
  netlink attribute (type-length-value) tree;
- how that tree is prefixed with the 4-byte nfnetlink sub-header (`putExtraHeader`);
- which netlink header type and flags Flush, Create and `testMarshal` give their messages;
- the fake-connection handler of `TestFlush` and `TestCreate`, which compares what the client
  sends with the expected messages.

The encoder (`nestAttributes`, `putExtraHeader`, `Flush`, `Create`) is rebuilt from the byte
fixtures of `conntrack_test.go`. Every fixture's data, header type and flags are proved to be
reproduced exactly. So is the header length, for the three cases whose written length is
consistent with their data: the fourth is discussed under Findings.

Files, one module each:

- `wire.dfy` (`Wire`): bytes, fixed-width integers, little- and big-endian words, padding to 4.
- `attributes.dfy` (`Attributes`): the attribute record, the encoder of an attribute tree, and a
  reference reader that walks records by their declared lengths. Reading what was encoded gives
  the tree back.
- `conntrack.dfy` (`ConntrackEntry`): the entry and its attribute tree (`NestAttributes`), a
  reference reader of entries, and the order, size and byte-layout facts about the tree.
- `request.dfy` (`Messages`): the sub-header, the Flush, Create and `testMarshal` messages, and
  the framing the transport applies on send (length, sequence number, port id).
- `fixtures.dfy` (`Fixtures`): the test tables, the request handler as a method with loops, the
  two test functions as methods, and the lemmas tying every fixture to the model.

Rules the fixtures fix, and the model follows:

- An attribute is a 16-bit declared length, then a 16-bit type, both little-endian.
- After the header comes the value, zero-padded to a multiple of 4. The pad is not counted in
  the declared length.
- A nested record sets bit 15 of its type. Its value is its children's records, padded sizes
  included.
- Scalar values are in network order: ports are 2 bytes, the timeout 4 bytes.
- Top-level records come in the order origin (1), reply (2), timeout (7), protocol info (4).
  An absent field writes nothing.
- The sub-header is family, version 0, then a big-endian resource id. The id is 0 for Flush
  and 1 (`NFNL_SUBSYS_CTNETLINK`) for Create and `testMarshal`.

## Model

| member | source | states |
|---|---|---|
| Wire.BE16 | conntrack_test.go:156 | A port is two bytes in network order (22 gives `00 16`); reading them back gives the port. |
| Wire.BE32 | conntrack_test.go:156 | The timeout is four bytes in network order; reading them back gives the value. |
| Wire.Pad | conntrack_test.go:156 | Fewer than 4 pad bytes always bring a value to a multiple of 4. |
| Attributes.Attr | conntrack_test.go:156 | One record: it occupies the aligned size, declares 4 plus the unpadded value length, carries its type, holds the value at offset 4 and ends in zero pad bytes. |
| Attributes.AttrUnpadded | conntrack_test.go:156 | A value whose length is a multiple of 4 gets no pad: the record is header plus value. |
| Attributes.EncodeAligned | conntrack_test.go:156 | Every emitted record occupies a multiple of 4 bytes, and at least its header. |
| Attributes.EncodeAllAligned | conntrack_test.go:156 | A list of records always occupies a multiple of 4 bytes. |
| Attributes.EncodeAllSize | conntrack_test.go:156 | A list of records is exactly as long as the sum of its records' padded sizes. |
| Attributes.ScalarLayout | conntrack_test.go:156 | A scalar record declares 4 plus its value length, carries its kind without bit 15, holds the value, and is followed by zero pad. |
| Attributes.NestedLayout | conntrack_test.go:156 | A nested record declares 4 plus the padded sizes of its children, sets bit 15 of its type, holds the children's bytes and needs no pad. |
| Attributes.NestedBytes | conntrack_test.go:156 | A nested record is its declared length, its type with bit 15 set, and its children's bytes, with no pad of its own. |
| Attributes.ReadEncoded | conntrack_test.go:156 | The reference reader takes an encoded record back off a byte stream and leaves what follows it untouched. |
| Attributes.ReadAllEncoded | conntrack_test.go:156 | The reference reader turns the bytes of a record list back into the list. |
| Attributes.EncodeAllInjective | conntrack_test.go:156 | Two record lists with the same bytes are the same list. |
| ConntrackEntry.NestAttributes | conntrack_test.go:207-210 | The attribute bytes of any entry are 4-byte aligned and at most 128 bytes, so in this model no declared length can overflow and no entry leads to an error. |
| ConntrackEntry.ConBound | conntrack_test.go:137-141 | The records of any entry take at most 128 bytes: two 52-byte tuples, an 8-byte timeout and 16 bytes of protocol info. |
| ConntrackEntry.ConRoundTrip | conntrack_test.go:137-141 | Reading the record tree of an entry back gives the entry, every field present or absent as it was. |
| ConntrackEntry.DecodeNestAttributes | conntrack_test.go:207 | Decoding the attribute bytes of an entry gives the entry back. |
| ConntrackEntry.NestAttributesInjective | conntrack_test.go:207 | Two entries with the same attribute bytes are the same entry. |
| ConntrackEntry.ConAttrsKinds | conntrack_test.go:137-141 | Each field gives one top-level record when set and none otherwise. The records' kinds follow the field order. |
| ConntrackEntry.ConAttrsOrder | conntrack_test.go:156 | Every top-level record is an origin, reply, timeout or protocol-info record, and they come strictly in that order. |
| ConntrackEntry.ConAttrsPresence | conntrack_test.go:137-141 | A top-level record of a field's kind exists if and only if that field is set. |
| ConntrackEntry.TupleRoundTrip | conntrack_test.go:137-138 | Reading a tuple's records back gives the tuple: addresses, protocol number and ports. |
| ConntrackEntry.ProtoInfoRoundTrip | conntrack_test.go:140 | Reading the protocol-info records back gives the TCP state. |
| ConntrackEntry.Scalar1Layout | conntrack_test.go:156 | A 1-byte value (protocol 17, TCP state 8) is declared as length 5 and followed by 3 zero bytes. |
| ConntrackEntry.Scalar2Layout | conntrack_test.go:156 | A 2-byte port is declared as length 6 and followed by 2 zero bytes. |
| ConntrackEntry.Scalar4Layout | conntrack_test.go:156 | A 4-byte value (address, timeout) is declared as length 8 and has no pad. |
| ConntrackEntry.NestedSmallLayout | conntrack_test.go:156 | A small nested record is declared as 4 plus its body, with type byte `k` and `0x80` (bit 15). |
| ConntrackEntry.IPBlockRecords | conntrack_test.go:156 | The IP block with both addresses is declared as 0x14 = 4 + 8 + 8, type 0x8001, followed by the source and then the destination record. |
| ConntrackEntry.ProtoBlockRecords | conntrack_test.go:156 | The protocol block with number and both ports is declared as 0x1c = 4 + 8 + 8 + 8, type 0x8002, followed by the number, source-port and destination-port records. |
| ConntrackEntry.TupleRecord | conntrack_test.go:156 | A complete tuple record is declared as 0x34 = 4 + 20 + 28, with bit 15 set, and holds the IP block and then the protocol block. |
| ConntrackEntry.CompleteTupleLayout | conntrack_test.go:156 | The full 52-byte layout of a complete tuple: little-endian headers, the addresses as given, big-endian ports, each value padded. |
| ConntrackEntry.MirrorLayout | conntrack_test.go:137-138 | The record of a mirrored tuple is the original's layout with the two addresses exchanged and the two ports exchanged; every header and pad byte is unchanged. |
| ConntrackEntry.TimeoutLayout | conntrack_test.go:139 | The timeout record is `08 00 07 00` followed by the timeout in network order. |
| ConntrackEntry.TCPBlockLayout | conntrack_test.go:140 | The TCP block is declared as 0x0c, type 0x8001, and holds the state record (length 5, type 1, state, 3 zero bytes). |
| ConntrackEntry.TCPStateLayout | conntrack_test.go:140 | Protocol info is declared as 0x10, type 0x8004, and holds the TCP block. |
| Messages.ExtraHeader | conntrack_test.go:211 | The sub-header is 4 bytes: family, version, then the resource id in network order. |
| Messages.ExtraHeaderRoundTrip | conntrack_test.go:211 | The family, version and resource id are read back from the sub-header, whatever follows it. |
| Messages.MessageType | conntrack_test.go:23 | A header type carries the subsystem in its high byte and the message code in its low byte. |
| Messages.FlushRequest | conntrack_test.go:18-32 | Flush: type subsystem << 8 with code 2 (delete), flags Request and Acknowledge, data family, 0, 0, 0. |
| Messages.CreateRequest | conntrack_test.go:119-133 | Create: type subsystem << 8 with code 0 (new), flags Request, Create, Acknowledge and Excl, data the sub-header with resource id 1 followed by the entry's attribute bytes. |
| Messages.MarshalRequest | conntrack_test.go:206-225 | testMarshal builds the same data and type as Create, with the flags of Create less Create and Excl. |
| Messages.Send | conntrack_test.go:21 | The transport keeps data, type and flags, stamps its sequence number and port id, and records 16 plus the data length as the message length. |
| Messages.CreateDataRoundTrip | conntrack_test.go:206-212 | The family, the resource id 1 and the entry are all recovered from create-request data. |
| Messages.CreateDataInjective | conntrack_test.go:206-212 | Different entries, or different families, never give the same create-request data. |
| Messages.FlagValues | conntrack_test.go:25 | The flags are 0x005 for Flush and testMarshal and 0x605 for Create; only Create carries Excl and Create. |
| Messages.SentLength | conntrack_test.go:21 | A flush message is 20 bytes on the wire; a create message is 20 plus its attribute bytes, at most 148. |
| Fixtures.HandleRequests | conntrack_test.go:61-92 | The handler (the same at conntrack_test.go:165-196) passes exactly when there is no request, or one request that agrees with the only expected message. Otherwise it reports the first failing check in the source's order: count, data length, type, flags, then the first differing data byte. |
| Fixtures.AgreesIsEqualityUpToCounters | conntrack_test.go:76-90 | What the handler compares is equality of messages up to header length, sequence number and port id. |
| Fixtures.FlushFixturesExact | conntrack_test.go:18-50 | Both flush cases send exactly their expected message, header length 20 included. |
| Fixtures.FlushSubtest | conntrack_test.go:57-100 | Every flush subtest passes the handler. |
| Fixtures.RunFlushTests | conntrack_test.go:56-101 | TestFlush: every case passes. |
| Fixtures.NoAttributesEmpty | conntrack_test.go:119 | An entry with no field set writes no attribute bytes. |
| Fixtures.OriginRecordMatches | conntrack_test.go:137 | The example origin tuple encodes to the first 52 attribute bytes of the fixture. |
| Fixtures.ReplyRecordMatches | conntrack_test.go:138 | The example reply tuple encodes to the next 52 bytes. |
| Fixtures.TailRecordsMatch | conntrack_test.go:139-140 | Timeout 100 encodes to `08 00 07 00 00 00 00 64`; TCP state 8 encodes to the last 16 bytes. |
| Fixtures.CreateExampleAttributes | conntrack_test.go:136-156 | The conntrack_create.c entry encodes to the fixture's 128 attribute bytes, record by record. |
| Fixtures.CreateExampleReplyMirrored | conntrack_test.go:137-138 | The example reply is the mirrored origin, and the reply record bytes are the mirrored origin's record. |
| Fixtures.CreateRequestData | conntrack_test.go:133 | The two create cases' data are `02 00 00 01` and the 132 fixture bytes. |
| Fixtures.CreateExampleDataLength | conntrack_test.go:156 | The fixture's create data is 132 bytes long. |
| Fixtures.EmptyCreateSent | conntrack_test.go:119-133 | The empty create request on the wire is exactly the expected message: 20 bytes, type 0x0100, flags 0x605, data `02 00 00 01`. |
| Fixtures.ExampleCreateSent | conntrack_test.go:136-157 | The conntrack_create.c request on the wire is 148 bytes, type 0x0100, flags 0x605, with the fixture data. |
| Fixtures.CreateCaseAgrees | conntrack_test.go:113-158 | Each create case's request has exactly the expected data, type and flags. |
| Fixtures.CreateCaseAccepted | conntrack_test.go:165-196 | The handler's pass condition holds for each create case. |
| Fixtures.CreateSubtest | conntrack_test.go:162-202 | Every create subtest passes the handler. |
| Fixtures.RunCreateTests | conntrack_test.go:161-203 | TestCreate: every case passes. |
| Fixtures.MarshalFixture | conntrack_test.go:206-225 | testMarshal on the example entry builds the fixture's 132 data bytes, type 0x0100 and flags 0x005. |
| Fixtures.CreateLengthAsWritten | conntrack_test.go:145 | As written, the second create case expects header length 80, but the message is 148 bytes; the case passes all the same because the length is never compared. |
| Fixtures.CorrectedCreateTestsDiffer | conntrack_test.go:145 | The corrected table differs from the written one only in the second case's header length. |
| Fixtures.CorrectedCaseExact | conntrack_test.go:145 | With length 148, each create case's request is exactly its expected message. |

## Left out

- example/main.go is not part of this model. It is a demo against a live kernel socket: open,
  register, dump, get, query, batch updates, timing and printing.
- The transport is left out: `nltest.Dial`, `AdjustWriteTimeout` and `Close`. Its effect on a
  message is modelled by `Messages.Send`. The sequence number and the port id are parameters.
- Responses: the handler returns no messages, so reply parsing is not modelled.
- Decoding of kernel messages, dump reassembly, batching and event subscription are left out:
  the modelled code has no decoder, dump, batch or event logic for a model to follow.
  `ConntrackEntry.DecodeCon` is a reference reader used only to state the round trips; it is
  not the library's decoder.
- ConntrackEntry.NestAttributes: the error return of `nestAttributes`
  (conntrack_test.go:207-210) is not modelled; no input of this model reaches it. `ProtoInfo`
  has only the TCP variant, and `TCPInfo` only the state field. Tuples with one address or
  none, an empty protocol tuple and a TCP block without a state follow "an absent field
  writes nothing" as a modelling choice; no fixture confirms their layout.
- Label and LabelMask (the benchmark at conntrack_test.go:227-267) are left out: no output
  bytes are asserted for them.
- The other `Con` fields (zone, mark, status, counters and so on), IPv6 addresses, ICMP tuples
  and the other operations (Get, Query, Delete, Update) are left out. No fixture fixes their
  layout.
- `net.ParseIP` is left out: addresses are given as 4-byte sequences.
- Attribute headers are written little-endian, as on the hosts the fixtures come from.
  Big-endian hosts are not modelled.
- `t.Fatalf` ends a subtest. The model returns the failure as an outcome; the test goroutine
  itself is not modelled.
- The handler sets the sequence number of the first expected message in the test table. The
  model does this on a local copy. The write is not carried over to later cases, and no case
  reads it.

## Findings

| source | as written | input that shows it | evidently intended | confidence | as-written member | corrected member |
|---|---|---|---|---|---|---|
| conntrack_test.go:145 | The conntrack_create.c case expects header length 80. | Create(Conntrack, IPv4, the conntrack_create.c entry) sends 16 + 132 = 148 bytes, and the handler never compares the length. | Length 148, as the two 20-byte cases show for their data. | high, not executed | Fixtures.CreateLengthAsWritten | Fixtures.CorrectedCaseExact |
