# Lagopus agent: a verified model

This project models the protocol core of the Lagopus OpenFlow 1.3 agent and proves properties of it. The state
machines are proved over every run, the codecs over every value and every byte string.

- **Multipart.** `MultipartRequest.dfy` models the sixteen-slot table that reassembles multipart requests and shows
  that interleaved transactions never disturb each other. `MultipartReply.dfy` and `FlowStats.dfy` model how a reply
  of any number of entries is spread over messages, with buffer cursors moved and headers rewritten in place.
  `MultipartLoop.dfy` joins the two: a fragmented reply put through the reassembly gives the entries back.
- **Codecs.** `Action.dfy`, `ActionEncoder.dfy`, `Instruction.dfy`, `Bucket.dfy`, `Match.dfy`, `TableFeatures.dfy`,
  `TableFeaturesParser.dfy` and `HelloElement.dfy` hold the wire formats as functions on byte sequences with round
  trips, and the parsers and encoders as methods on the packet buffer of `Buffer.dfy` that are proved to compute those
  functions. `Canonical.dfy` says which accepted instruction bytes the encoder reproduces. `Tlv.dfy` has the 16-bit
  length arithmetic and the padding, `Bytes.dfy` the big-endian words. `Wire.dfy` says the same formats in bytes, with
  the numbers of the protocol's header file, and the error code of every refusal.
- **Stream.** `Framing.dfy` models how the byte stream of a channel is cut into messages.
- **Channels.** `ChannelFsm.dfy` models the connection state machine with its nested dispatch, the reconnect
  interval and the switch mode; `ChannelMgr.dfy` the name and dpid tables and channel ids; `Role.dfy` the controller
  roles and generation ids.
- **Bridge queues.** `BridgeQueue.dfy` models the reference-counted queues shared by the agent's threads and the array
  that caches their table.
- **Generator.** `Generator.dfy` models the small compiler that turns structure declarations into codecs; the emitted
  statements have a meaning of their own, and the properties are about all declaration lists.

Where the code changes things in place, the model has classes and methods with loops. Each method is proved against a
function or a step relation, and the lemmas are about those. What the outside decides (sockets, timers, allocation,
the order in which a hash map is walked, whether a channel is alive) is a parameter or a nondeterministic choice.

Some properties that the source aims at turn out false of the code. Each is stated with the input or run that shows it
and the exact condition under which it holds:

- at most one MASTER per dpid: `Roles.TwoMasters`, `Roles.SecondMasterIff`, `Roles.MastersArePromotions`;
- a bridge queue cache without freed queues: `BridgeRefs.OverfilledRun`, `BridgeRefs.CacheStaysLiveIff`;
- a bridge that leaves OpenFlow mode with its last channel: `ChannelFsm.DetachLeavesOpenFlow`,
  `ChannelFsm.OpenFlowIsServed`, `ChannelFsm.DetachIff`;
- a stop that puts a bridge without live channels into its fail mode: `ChannelFsm.TlsStopKeepsOpenFlow`,
  `ChannelFsm.StopSetsFailMode`;
- a stopped channel that can connect again: `ChannelFsm.ShutDownStays`, `ChannelFsm.RestartIff`;
- an established channel whose start lies behind its last stop: `ChannelFsm.RevivedTls`, `ChannelFsm.HistoryIff`;
- a failed connect that is tried again: `ChannelFsm.StrandedIsReached`, `ChannelFsm.StrandedRun`;
- generated decoders that invert their encoders: `Codegen.NestedStructIsLost`, `Codegen.RowsAreLost`,
  `Codegen.InvertsIff`, and for the cursors alone `Codegen.CursorsAgreeIff`;
- a reading loop that ends: `Framing.ZeroLengthHangs`, `Framing.LoopEndsIff`;
- a table-features parser that ends: `PropertyFormat.StallingProperty`, `PropertyFormat.ParserEndsIff`;
- a transition table that nested dispatch does not override: `ChannelFsm.TimerStartStaysInConnect`.

Assumptions the model rests on: operations of a manager are atomic because they run under its lock; structures have no
padding between their members; encoding buffers have 65535 bytes; the identity of a queue or channel is its
allocation, so a reused address counts as a new one; a connect that succeeds or is in progress leaves the socket open;
a timer may fire in any status; what a TLS handshake on an open socket comes to is up to the peer.

`dafny verify dfyconfig.toml` checks the whole project.

## Model

| member | source | states |
|---|---|---|
| `Buffer.Pbuf.Alloc` | src/lib/pbuf.c:32-51 | a fresh buffer holds at least 1024 zero bytes and both cursors are at the start |
| `Buffer.Pbuf.Reset` | src/lib/pbuf.c:24-29 | both cursors go back to the start and plen is set |
| `Buffer.Pbuf.Load` | src/lib/pbuf.c:478-486 | the saved cursors are restored and no byte changes |
| `Buffer.Pbuf.Length` | src/lib/pbuf.c:438-465 | succeeds exactly when the distance of the cursors fits 16 bits, and then returns it |
| `Buffer.Pbuf.Encode` | src/lib/pbuf.c:307-329 | all bytes are written behind the write cursor and paid for out of plen, or none are |
| `Buffer.Pbuf.Decode` | src/include/lagopus/pbuf.h:75-119 | the next n bytes are taken off the front of the readable part, or nothing moves |
| `Buffer.Pbuf.Forward` | src/lib/pbuf.c:155-172 | moves the read cursor by n if plen covers it, else changes nothing |
| `Buffer.Pbuf.Append` | src/lib/pbuf.c:281-304 | appends exactly the unread bytes of the other buffer if plen has room for all, else nothing |
| `Buffer.Pbuf.Copy` | src/lib/pbuf.c:222-245 | adds the bytes to the written part and to plen, or refuses when they exceed the block |
| `ReplyPacking.ReplyRoundTrip` | src/agent/ofp_header_handler.c:163-231 | the sixteen bytes of a multipart reply header decode to the header they were made from, whatever follows |
| `WireLayout.HeaderLayout` | src/include/openflow13.h:936-942 | the bytes of a multipart reply header, field by field |
| `ReplyPacking.PackKeepsEntries` | src/agent/ofp_multipart_handler.c:265-303 | for every entry list the groups concatenate to it: no entry is split, dropped, repeated or moved |
| `ReplyPacking.PackFits` | src/agent/ofp_multipart_handler.c:265-303 | all groups fit a message if and only if every single entry does |
| `ReplyPacking.PackIsGreedy` | src/agent/ofp_multipart_handler.c:265-303 | a group is started only when the entry did not fit the group before |
| `ReplyPacking.RenderedReplyCarries` | src/agent/ofp_flow_handler.c:54-176 | for every list of entries that fit: bodies concatenate to the entries, every header length is its message's byte count, all but the last message carry REPLY_MORE, xid and type agree, and none exceeds the maximum |
| `MultipartReply.HeaderMpCopy` | src/agent/ofp_header_handler.c:163-231 | closes the old header with its length and REPLY_MORE, copies it to the new buffer with flag and length reset, and puts the old cursors back; succeeds exactly when the length fits 16 bits and the new buffer has room |
| `MultipartReply.HeaderLengthSet` | src/agent/ofp_header_handler.c:234-277 | rewrites the length of the message in place and leaves cursors and other bytes alone |
| `MultipartReply.AppendBody` | src/lib/pbuf.c:281-304 | the entry joins the body of the last message if it fits, else the message stays as it was |
| `MultipartReply.OpenNext` | src/agent/ofp_header_handler.c:163-231 | one message is closed as continued and the next is opened with the same xid and type and an empty body |
| `MultipartReply.MultipartAppend` | src/agent/ofp_multipart_handler.c:265-303 | the message list after an entry is the list of the packing: in the last message if it fits, else in a new one; refused exactly when it fits no message |
| `MultipartReply.AppendedIsAdded` | src/agent/ofp_multipart_handler.c:265-303 | appending to the messages of a packing gives the messages of the packing with the entry added |
| `MultipartReply.CloseMessage` | src/agent/ofp_flow_handler.c:170-175 | the last header gets its message's length |
| `MultipartReply.FinishReply` | src/agent/ofp_flow_handler.c:170-175 | only the last header changes when a reply is finished |
| `FlowStatsFormat.FlowEntryReads` | src/agent/ofp_flow_handler.c:43-135 | a receiver finds in every entry its exact extent, every counter at its place in the structure, the match and the instructions it was made from |
| `FlowStatsReply.FlowEncode` | src/agent/ofp_flow_handler.c:66-118 | an entry is encoded exactly when its bytes fit, with its length patched to its extent |
| `FlowStatsReply.FlowAppend` | src/agent/ofp_flow_handler.c:54-126 | an entry goes through a buffer of its own and extends the reply; refused exactly when it fits no message |
| `FlowStatsReply.FlowListEncode` | src/agent/ofp_flow_handler.c:43-135 | succeeds exactly when every entry fits a message, and then the messages are those of the packing |
| `FlowStatsReply.ReplyCreate` | src/agent/ofp_flow_handler.c:138-203 | the reply can be made exactly when every entry fits; the bytes of each buffer then are a message of type 19 with the version and xid of the request, its own length, multipart type 1 and the more flag on all but the last, and behind the headers the entries follow each other |
| `MultipartTable.ViewPut` | src/agent/channel.c:1521-1560 | writing a slot is adding the fragment to the table of that xid, and used slots keep distinct xids |
| `MultipartTable.ViewGet` | src/agent/channel.c:1564-1614 | emptying a slot is taking the entry of its xid out of the table |
| `MultipartTable.Channel.Put` | src/agent/channel.c:1521-1560 | the slot array refines the map from xid to type and fragments, with NO_MEMORY exactly when the xid is new and all slots are used, and no change on a type clash |
| `MultipartTable.Channel.Drain` | src/agent/channel.c:1585-1605 | the copy loop never runs out of room and joins the fragments in order |
| `MultipartTable.Channel.Get` | src/agent/channel.c:1564-1614 | returns the fragments of one xid joined in order of arrival and frees the slot |
| `MultipartTable.Channel.RequestHandle` | src/agent/ofp_multipart_handler.c:96-172 | one fragment is one step of the reassembly |
| `Reassembly.TableTracksHistory` | src/agent/ofp_multipart_handler.c:142-172 | in every run the table holds for each xid exactly its fragments since its last completion, and never more than sixteen xids |
| `Reassembly.DeliveryIsExact` | src/agent/ofp_multipart_handler.c:142-172 | in every interleaving a completed request delivers the concatenation, in arrival order, of its own fragments since its last completion, and every admitted last fragment completes |
| `Reassembly.RefusalIsExact` | src/agent/ofp_multipart_handler.c:96-172 | a fragment is refused if and only if a check before the table refuses it, its type clashes with its pending fragments, or it is new while sixteen xids are open; and the error code of each case |
| `Reassembly.OpenXidsAreKeys` | src/agent/channel.c:1521-1560 | the used slots are exactly the xids with pending fragments in the history |
| `Reassembly.XidsAreIsolated` | src/agent/ofp_multipart_handler.c:142-172 | when nothing is refused, each xid sees the same outcomes as if the others did not exist |
| `MultipartLoop.FragmentsAreDelivered` | src/agent/channel.c:1521-1614 | the messages of one reply, fed to the table after any history, are delivered as the concatenation of their bodies |
| `MultipartLoop.ReplyReassembles` | src/agent/ofp_multipart_handler.c:142-172 | for every list of entries that can be sent, the fragmented reply put through the reassembly gives the entries' bytes back |
| `Framing.FramesTile` | src/agent/channel.c:353-369 | unless some header that is reached announces length 0, the cut of a stream consists of whole messages of the announced lengths, 1 to 7 included, and a residue that is a proper prefix of the next |
| `Framing.FramesAreUnique` | src/agent/channel.c:353-369 | a stream has no other such cut |
| `Framing.CutIff` | src/agent/channel.c:353-369 | a stream has such a cut if and only if no header that is reached announces length 0 |
| `WireLayout.ReadyIff` | src/agent/channel.c:235-266 | a message is taken when eight bytes of header are there and all the bytes they announce |
| `WireLayout.AnnouncedIsLength` | src/agent/channel.c:235-266 | the announced length is the length field of the message header |
| `Framing.ZeroHeaderStays` | src/agent/channel.c:235-266 | at a header of length 0 any number of rounds gives the same bytes back |
| `Framing.LoopEndsIff` | src/agent/channel.c:331-337 | the dispatch loop comes to an end if and only if no header that is reached announces length 0 |
| `Framing.ZeroLengthHangs` | src/agent/channel.c:331-337 | eight bytes on which the loop is always ready for another round |
| `Framing.HangingDoesNotDependOnChunks` | src/agent/channel.c:290-337 | the loops of all reads end if and only if the joined bytes have a cut, however they are chunked |
| `Framing.RestIsShort` | src/agent/channel.c:235-266 | the residue is always shorter than the input buffer, so there is room to read |
| `Framing.FramesAppend` | src/agent/channel.c:290-337 | bytes that arrive later never change what was dispatched before |
| `Framing.ChunkingDoesNotMatter` | src/agent/channel.c:290-337 | however the reads chunk the same bytes, the same messages are dispatched and the same residue stays |
| `StreamReader.Channel.TakeMessage` | src/agent/channel.c:235-266 | for every announced length, a whole first message is handed over in its buffer and exactly the bytes behind it move to a new one |
| `StreamReader.Channel.Dispatch` | src/agent/channel.c:331-337 | the loop dispatches exactly the messages of the cut, in order, and keeps the residue |
| `StreamReader.Channel.Read` | src/agent/channel.c:290-340 | one read dispatches the messages of the residue and the new bytes, and leaves room for the next read |
| `Tlv.Pad` | src/agent/ofp_padding.h:28 | fewer than eight bytes, up to the next multiple of eight |
| `Tlv.LengthSum` | src/agent/ofp_tlv.c:45-57 | the wrap test after the addition detects exactly the sums that do not fit 16 bits |
| `Tlv.SumChain` | src/agent/ofp_tlv.c:45-57 | a loop of such sums succeeds if and only if the mathematical total fits 16 bits, and returns it |
| `Tlv.LengthSet` | src/agent/ofp_tlv.c:25-41 | overwrites the two length bytes and nothing else |
| `Tlv.PaddingEncode` | src/agent/ofp_padding.c:63-84 | writes the zero padding and counts it, exactly when it fits the buffer and the 16-bit length |
| `ActionFormat.PropsRoundTrip` | src/agent/ofp_action.c:418-473 | encap and decap property lists survive the wire |
| `ActionFormat.ParsedProps` | src/agent/ofp_action.c:418-473 | every accepted property list is well formed and as long as its properties |
| `ActionFormat.ActionRoundTrip` | src/agent/ofp_action.c:561-712 | parsing any encoded action gives it back, padded set-field OXMs and property lists included, whatever follows it |
| `ActionFormat.ActionsRoundTrip` | src/agent/ofp_action.c:561-712 | parsing an encoded action list gives it back and stops at its end |
| `ActionFormat.ActionExtent` | src/agent/ofp_action.c:579-698 | every accepted action took as many bytes as its encoding has |
| `ActionFormat.ActionsExtent` | src/agent/ofp_action.c:579-698 | a successful parse moves by exactly the sum of its action lengths and by no less than was asked for |
| `ActionParser.EdPropParse` | src/agent/ofp_action.c:418-473 | the method computes the property parser on the readable bytes and moves by what it used |
| `ActionParser.EdPropsParse` | src/agent/ofp_action.c:490-505 | the property loop computes the list parser, on every input, and ends |
| `ActionParser.FixedParse` | src/agent/ofp_action.c:138-312 | the fixed-size actions keep every field, padding included, and move by their size |
| `ActionParser.SetFieldParse` | src/agent/ofp_action.c:335-415 | set-field keeps class, field and value and moves over the padding |
| `ActionParser.EncapParse` | src/agent/ofp_action.c:476-515 | header and properties are kept and end exactly where the length says |
| `ActionParser.DecapParse` | src/agent/ofp_action.c:518-558 | the same for decap |
| `ActionParser.ActionParse` | src/agent/ofp_action.c:561-712 | the action loop computes the list parser on every input, error cases included, and ends |
| `ActionEncoder.SetFieldEncode` | src/agent/ofp_action.c:729-776 | the bytes written are those of the format, length patched over the padding; succeeds exactly when they fit |
| `ActionEncoder.EdPropEncode` | src/agent/ofp_action.c:779-819 | a property is written with its length patched, exactly when it fits |
| `ActionEncoder.PropsActionEncode` | src/agent/ofp_action.c:822-929 | header, properties and patched length of encap and decap; the unchecked 16-bit additions cannot wrap |
| `ActionEncoder.ActionListEncode` | src/agent/ofp_action.c:932-1034 | succeeds exactly when the bytes fit; then the returned total equals the bytes written |
| `InstructionFormat.ParseInstruction` | src/agent/ofp_instruction.c:80-192 | every accepted instruction takes at least eight bytes and is well formed |
| `InstructionFormat.InstructionRoundTrip` | src/agent/ofp_instruction.c:80-192 | parsing an encoded instruction gives it back, whatever follows |
| `InstructionFormat.InstructionsRoundTrip` | src/agent/ofp_instruction.c:80-305 | parsing the encoding of any well-formed instruction list gives the list back, through nested actions, OXMs and properties |
| `InstructionFormat.InstructionsInjective` | src/agent/ofp_instruction.c:195-305 | different lists have different encodings |
| `InstructionFormat.InstructionExtent` | src/agent/ofp_instruction.c:80-192 | an accepted instruction took as many bytes as its encoding has |
| `InstructionFormat.InstructionsExtent` | src/agent/ofp_flow_mod_handler.c:101-108 | an accepted message is as long as the encoding of what it was parsed into |
| `InstructionCodec.InstructionParse` | src/agent/ofp_instruction.c:80-192 | the method computes the instruction parser and moves by what it used |
| `InstructionCodec.InstructionsParse` | src/agent/ofp_flow_mod_handler.c:101-108 | the loop ends on every input and computes the list parser, with nothing left on success |
| `InstructionCodec.OneInstructionEncode` | src/agent/ofp_instruction.c:210-300 | an instruction is written with its length patched to its extent, exactly when it fits |
| `InstructionCodec.InstructionListEncode` | src/agent/ofp_instruction.c:195-305 | succeeds exactly when the bytes fit; then the total equals the bytes written |
| `Canonical.PropsIff` | src/agent/ofp_action.c:418-473 | encoding an accepted property list gives its bytes back if and only if every property declares its true length |
| `Canonical.ActionIff` | src/agent/ofp_action.c:561-1034 | encoding an accepted action gives its bytes back if and only if the padding of a set-field is zero and the properties of an encap or decap declare their true lengths |
| `Canonical.ActionsIff` | src/agent/ofp_action.c:561-1034 | the same for an accepted action list, action by action |
| `Canonical.InstructionIff` | src/agent/ofp_instruction.c:80-305 | encoding an accepted instruction gives its bytes back if and only if it declares the length it takes and the actions in it are such |
| `Canonical.MessageIff` | src/agent/ofp_flow_mod_handler.c:101-108 | for every accepted message, encode after parse is the identity if and only if each of its instructions is such |
| `WireLayout.ByteOrder` | src/include/lagopus/pbuf.h:89-160 | words of two, four and eight bytes have their most significant byte first |
| `WireLayout.ActionLayout` | src/include/openflow13.h:225-247 | the bytes of every action, for all values of its fields, with type code and length as numbers |
| `WireLayout.PropLayout` | src/include/openflow13.h:596-600 | the same for an encap or decap property |
| `WireLayout.FixedActionParses` | src/agent/ofp_action.c:561-712 | for all bytes, what the parser makes of each type number: the action, or the error |
| `WireLayout.SetFieldParses` | src/agent/ofp_action.c:335-415 | for all bytes of a set-field action, exactly which are taken, and the error for the others |
| `WireLayout.EncapRefused` | src/agent/ofp_action.c:476-558 | the errors of encap and decap actions, when the properties end elsewhere than the length says too |
| `WireLayout.PropRefused` | src/agent/ofp_action.c:418-473 | the errors of their properties |
| `WireLayout.KnownFields` | src/agent/ofp_oxm.c:25-105 | the match field numbers that are known, with and without the mask bit |
| `WireLayout.InstructionLayout` | src/include/openflow13.h:215-223 | the bytes of every instruction, for all values of its fields |
| `WireLayout.InstructionRefused` | src/agent/ofp_instruction.c:80-192 | for all bytes, the error of each kind of refusal |
| `WireLayout.ClearWithActionsRefused` | src/agent/ofp_instruction.c:138-165 | clear-actions with actions in it is refused |
| `BucketFormat.BucketRoundTrip` | src/agent/ofp_bucket.c:70-206 | parsing an encoded bucket gives it back, whatever follows |
| `BucketFormat.BucketsRoundTrip` | src/agent/ofp_bucket.c:70-206 | a bucket list with the actions nested in it survives the wire |
| `BucketFormat.ParseBucket` | src/agent/ofp_bucket.c:70-137 | an accepted bucket takes exactly its declared length, at least sixteen bytes |
| `WireLayout.BucketLayout` | src/include/openflow13.h:873-880 | the bytes of a bucket, field by field |
| `WireLayout.BucketRefused` | src/agent/ofp_bucket.c:70-137 | the error of a bucket with a bad length |
| `BucketCodec.BucketParse` | src/agent/ofp_bucket.c:70-137 | the method computes the bucket parser and moves by what it used |
| `BucketCodec.BucketsParse` | src/agent/ofp_group_mod_handler.c:44-70 | the bucket loop ends on every input and uses up the message on success |
| `BucketCodec.OneBucketEncode` | src/agent/ofp_bucket.c:150-200 | a bucket is written with its length patched to its extent, exactly when it fits |
| `BucketCodec.BucketListEncode` | src/agent/ofp_bucket.c:140-206 | succeeds exactly when the bytes fit; then the total equals the bytes written |
| `BucketCodec.GroupDescEncode` | src/agent/ofp_group_desc_handler.c:40-103 | the group entry carries its exact extent; its unchecked addition never wraps |
| `FieldSort.InsertAllSorts` | src/agent/ofp_match.c:191-204 | inserting the fields one by one is a stable sort by field type |
| `FieldSort.StableSortUnique` | src/agent/ofp_match.c:191-204 | there is only one stable sort of a list |
| `FieldSort.SortedIsFixed` | src/agent/ofp_match.c:191-204 | a list that is sorted already is left as it is |
| `MatchFormat.MatchParseIsExact` | src/agent/ofp_match.c:108-258 | a match is accepted if and only if its OXM TLVs tile the declared length exactly; the result is the stable sort by type of the wire order |
| `MatchFormat.MatchRoundTrip` | src/agent/ofp_match.c:108-361 | parsing an encoded sorted match gives it back, the empty match included |
| `WireLayout.FieldLayout` | src/include/openflow13.h:121-126 | the bytes of a match field, its class as a number |
| `WireLayout.MatchLayout` | src/include/openflow13.h:116-119 | the bytes of a match: type 1, the length without padding, the fields, zeros |
| `WireLayout.MatchIsSorted` | src/agent/ofp_match.c:191-204 | the fields of every parsed match are in the order of their numbers, the mask bit left aside |
| `WireLayout.MatchRefused` | src/agent/ofp_match.c:108-258 | the errors of a match with a bad type or length |
| `WireLayout.FieldRefused` | src/agent/ofp_match.c:162-219 | the errors of a match field of another class, of unknown number, or that is too long |
| `MatchCodec.InsertField` | src/agent/ofp_match.c:191-204 | the list walk puts a field behind those of its type |
| `MatchCodec.FieldsParse` | src/agent/ofp_match.c:162-219 | the pointer loop over the OXMs computes the field parser without moving the buffer |
| `MatchCodec.MatchParse` | src/agent/ofp_match.c:108-258 | the method computes the match parser, errors included, and moves over match and padding |
| `MatchCodec.FieldEncode` | src/agent/ofp_match.c:286-330 | one OXM is written and added to the length, exactly when it fits |
| `MatchCodec.MatchListEncode` | src/agent/ofp_match.c:261-361 | the match is written with its length field and padding; the total counts both |
| `TableFeaturesCodec.UnitsEncode` | src/agent/ofp_table_features_handler.c:187-222 | the list encoders write all units and return their total size, exactly when every listed type is known and they fit |
| `TableFeaturesCodec.PropertyEncode` | src/agent/ofp_table_features_handler.c:606-685 | a property is written with its length patched and its padding, exactly when its type is supported, the types it lists are known and it fits; the unchecked addition cannot wrap |
| `TableFeaturesCodec.PropertyListEncode` | src/agent/ofp_table_features_handler.c:592-702 | succeeds exactly when every property can be written and the bytes fit; then the total equals the bytes written |
| `TableFeaturesCodec.TableEncode` | src/agent/ofp_table_features_handler.c:719-745 | the entry carries its exact extent; its unchecked addition never wraps |
| `PropertyFormat.PropertyRoundTrip` | src/agent/ofp_table_features_handler.c:396-530 | the parser gives back every encoded property of the four list kinds whose listed types it knows and whose instruction or action list is not empty, whatever follows it |
| `PropertyFormat.PropertiesRoundTripIff` | src/agent/ofp_table_features_handler.c:396-530 | a non-empty property list comes back from the wire if and only if its instruction and action lists are not empty and hold only types the parser knows |
| `PropertyFormat.ParsedAreOk` | src/agent/ofp_table_features_handler.c:396-530 | whatever the bytes are, a property list the parser accepts is one that survives the wire |
| `WireLayout.PropertyLayout` | src/include/openflow13.h:556-574 | the bytes of a property and of each of its units, and which list goes with which type number |
| `WireLayout.PropertyKinds` | src/agent/ofp_table_features_handler.c:396-530 | for all bytes, which type numbers are read as which list, and the errors for the others |
| `WireLayout.HeadersRefused` | src/agent/ofp_action.c:1038-1145 | for all bytes, which instruction and action types are taken inside a property, and the errors for the others |
| `WireLayout.IdsParse` | src/agent/ofp_table_features_handler.c:50-87 | table ids are taken exactly when all their bytes are there |
| `WireLayout.OxmsParse` | src/agent/ofp_table_features_handler.c:147-184 | OXM ids are taken exactly when they divide what is left of the property |
| `WireLayout.PropertiesFill` | src/agent/ofp_table_features_handler.c:396-530 | a list that is taken ends exactly where the table says |
| `PropertyFormat.ActionsEndIff` | src/agent/ofp_table_features_handler.c:368-393 | the loop over the actions of a property ends if and only if its steps, the length the first action declares, are not 0 |
| `PropertyFormat.ParserEndsIff` | src/agent/ofp_table_features_handler.c:396-530 | for all bytes the whole parser, taken by single rounds of its nested loops, ends if and only if no property that it reaches lists actions of which the first declares length 0 |
| `PropertyFormat.StallingProperty` | src/agent/ofp_table_features_handler.c:396-530 | twelve bytes on which no number of rounds ends, wherever the list is to end |
| `PropertyParser.IdsParse` | src/agent/ofp_table_features_handler.c:50-87 | the loop computes the parser of table ids, errors included |
| `PropertyParser.OxmsParse` | src/agent/ofp_table_features_handler.c:147-184 | the loop computes the parser of OXM ids, which must end where the property does |
| `PropertyParser.InstTypeParse` | src/agent/ofp_instruction.c:309-383 | one instruction header, of which four bytes are taken whatever length it declares |
| `PropertyParser.InstTypesParse` | src/agent/ofp_table_features_handler.c:344-366 | the loop computes the parser of instruction headers; with nothing to read the result stays a failure |
| `PropertyParser.HeadParse` | src/agent/ofp_action.c:1060-1112 | one action header, of which eight bytes are taken whatever length it declares |
| `PropertyParser.HeadsParse` | src/agent/ofp_action.c:1038-1145 | the loop steps by declared lengths while the buffer moves by eight bytes, and ends on every input |
| `PropertyParser.RoundsParse` | src/agent/ofp_table_features_handler.c:368-393 | the outer loop repeats it in steps of the first action's length |
| `PropertyParser.UnitsParse` | src/agent/ofp_table_features_handler.c:423-485 | the switch over the property type, with an error for every type it does not take |
| `PropertyParser.PropertyParse` | src/agent/ofp_table_features_handler.c:409-506 | one property: header, unsigned length check, units, padding |
| `PropertyParser.PropertiesParse` | src/agent/ofp_table_features_handler.c:396-530 | the list parser, which reads at least one property and refuses a list that does not end where the table says |
| `ElementFormat.ParseWords` | src/agent/ofp_element.c:100-148 | the signed length loop takes whole words and stops at the first that covers the length |
| `ElementFormat.ParseElement` | src/agent/ofp_element.c:151-232 | every accepted hello element strictly reduces what is left to read |
| `ElementFormat.ElementRoundTrip` | src/agent/ofp_element.c:100-232 | parsing an encoded non-empty version bitmap gives it back and skips its padding |
| `ElementFormat.ElementsRoundTrip` | src/agent/ofp_element.c:151-343 | a list of non-empty version bitmaps survives the wire |
| `ElementFormat.ElementsRoundTripIff` | src/agent/ofp_element.c:151-343 | a list of elements comes back if and only if each has a word and the length that its words take; an empty bitmap and one whose length wraps do not |
| `WireLayout.HelloLayout` | src/include/openflow13.h:552-554 | the bytes of a version bitmap element |
| `WireLayout.HelloWords` | src/agent/ofp_element.c:235-271 | each word of a bitmap is at its place |
| `WireLayout.HelloSkips` | src/agent/ofp_element.c:151-232 | an element of another type is passed over with its padding |
| `WireLayout.HelloRefused` | src/agent/ofp_element.c:151-232 | the error of an element that is too short |
| `ElementCodec.WordsParse` | src/agent/ofp_element.c:100-148 | the bitmap loop computes the word parser and ends on every input |
| `ElementCodec.VersionBitmapParse` | src/agent/ofp_element.c:100-148 | a version bitmap and the padding behind it are taken off exactly as the format says |
| `ElementCodec.ElementParse` | src/agent/ofp_element.c:151-232 | the method computes the element parser; after an error the rest of the message is skipped |
| `ElementCodec.ElementsParse` | src/agent/ofp_hello_handler.c:87-93 | the hello loop ends on every input with nothing left to read |
| `ElementCodec.WordsEncode` | src/agent/ofp_element.c:235-271 | the words are written exactly when they fit; it fails only with fewer than four bytes left |
| `ElementCodec.OneElementEncode` | src/agent/ofp_element.c:285-330 | an element is written with its length patched and its padding, exactly when it fits |
| `ElementCodec.ElementListEncode` | src/agent/ofp_element.c:274-343 | although a failing element does not end the loop, OK is returned if and only if every element was written |
| `BridgeRefs.NextIsSound` | src/agent/ofp_bridgeq_mgr.c:111-173 | every operation keeps each counter equal to its table reference plus the handles outstanding |
| `BridgeRefs.RunIsSound` | src/agent/ofp_bridgeq_mgr.c:440-493 | the counters are exact in every state of every interleaving of register, lookup, snapshot, release and unregister |
| `BridgeRefs.InMemoryIffReferenced` | src/agent/ofp_bridgeq_mgr.c:131-173 | in every run a queue is in memory if and only if the table or a holder refers to it: it is freed at the last release, never while held |
| `BridgeRefs.FreedOnce` | src/agent/ofp_bridgeq_mgr.c:131-173 | a freed queue never comes back, so it is destroyed at most once |
| `BridgeRefs.RunCache` | src/agent/ofp_bridgeq_mgr.c:287-334 | what the cache holds is told by the last operation that touched it: the table's values once each after an OK register or unregister, nothing after an unknown dpid, a truncated walk after an overflow |
| `BridgeRefs.TableIsHistory` | src/agent/ofp_bridgeq_mgr.c:267-334 | in every run the table is told by the operations and their results: a queue from its registration to its unregistration |
| `BridgeRefs.ResultsFromHistory` | src/agent/ofp_bridgeq_mgr.c:288-493 | in every run the result of each operation is told by the history: which registrations and unregistrations are refused and how, which queue a lookup hands out, and what a snapshot does |
| `BridgeRefs.CacheIsLive` | src/agent/ofp_bridgeq_mgr.c:466-493 | while no registration overflowed, the main loop is handed only registered queues that are in memory |
| `BridgeRefs.CacheStaysLiveIff` | src/agent/ofp_bridgeq_mgr.c:288-310 | every outcome of a registration leaves a live cache live if and only if the dpid is known or the table has room |
| `BridgeRefs.OverfilledRun` | src/agent/ofp_bridgeq_mgr.c:201-223 | a run from the start, 512 registrations and a 513th, after which the cache holds a freed queue and no snapshot is defined |
| `BridgeRefs.HeldByThreads` | src/agent/ofp_handler.c:537-577 | in every interleaving of threads that give back in nested order, the handles outstanding are the sum of what the threads hold |
| `BridgeRefs.ThreadsAreAllowed` | src/agent/ofp_handler.c:931-1017 | in every such interleaving each release gives back only references that are held |
| `BridgeManager.Manager.Free` | src/agent/ofp_bridgeq_mgr.c:131-173 | a counter above one is lowered; otherwise, or by force, the queue is freed |
| `BridgeManager.Manager.MapToArray` | src/agent/ofp_bridgeq_mgr.c:201-246 | the array lists the table's values without repetition, or is cut off at 512 and reports it |
| `BridgeManager.Manager.UnregisterInternal` | src/agent/ofp_bridgeq_mgr.c:267-285 | removes the entry and drops its reference; an unknown dpid changes nothing |
| `BridgeManager.Manager.Register` | src/agent/ofp_bridgeq_mgr.c:288-310 | refines the registration step: refused if present, undone if the array overflows |
| `BridgeManager.Manager.Unregister` | src/agent/ofp_bridgeq_mgr.c:315-334 | refines the unregistration step, with the cache cleared before the lookup |
| `BridgeManager.Manager.Lookup` | src/agent/ofp_bridgeq_mgr.c:441-463 | hands out the queue with one more reference, or nothing |
| `BridgeManager.Manager.Snapshot` | src/agent/ofp_bridgeq_mgr.c:466-493 | hands out the cached queues, each with one more reference |
| `BridgeManager.Manager.Release` | src/agent/ofp_bridgeq_mgr.c:563-574 | gives back every reference and frees exactly the queues whose last one it was |
| `BridgeManager.Manager.Round` | src/agent/ofp_handler.c:931-1017 | one round of the main loop gives back exactly what it took, so handles, counters, table and cache are as before; the work in between is the parameter worked, its result, and no other thread runs in between |
| `ChannelFsm.RunKeeps` | src/agent/channel.c:778-870 | the channel invariant holds in every state of every run of steps, nested dispatch included |
| `ChannelFsm.EstablishedMeansOpenFlow` | src/agent/channel.c:710-742 | in every run an established channel with its session up has its bridge in OpenFlow mode |
| `ChannelFsm.ConnectingMeansAlive` | src/agent/channel.c:1888-1896 | in every run Connect, HelloSent and Established imply the alive flag |
| `ChannelFsm.IntervalIsBackoff` | src/agent/channel.c:664-692 | in every run the reconnect interval is min(2^k, 60) for k connect failures since the last success |
| `ChannelFsm.EstablishedHistory` | src/agent/channel.c:557-593 | in every run a channel is established only after a start, then an open, then a confirmed hello, all since it was last disabled |
| `ChannelFsm.RunLocal` | src/agent/channel.c:841-870 | in every run a channel is what its own steps make of it: channels share only the mode of their bridge |
| `ChannelFsm.EntersIff` | src/agent/channel.c:778-870 | for every channel and step, into which status it comes and exactly when |
| `ChannelFsm.SteadyRun` | src/agent/channel.c:803-826 | over all runs a channel in HelloSent or Established stays there exactly when none of its own steps is a stop, an expiry, a closed or failed connection, an enable, a disable of a live channel, or in HelloSent a confirmed hello or another message |
| `ChannelFsm.IdleRun` | src/agent/channel.c:782-792 | over all runs a channel stays in Idle exactly until a start that connects, an expiry, or a disable while it is alive |
| `ChannelFsm.SessionIff` | src/agent/channel.c:557-642 | for every channel and step, exactly when its socket is opened and closed |
| `ChannelFsm.AliveIff` | src/agent/channel.c:581-582 | for every channel and step, exactly when its alive flag is set and reset |
| `ChannelFsm.ConfiguredIff` | src/agent/channel.c:1243-1254 | a dpid changes exactly unless the channel is alive, a protocol exactly unless the socket is open |
| `ChannelFsm.ModesIff` | src/agent/channel.c:710-742 | a hello in HelloSent sets OpenFlow even when the timer then fails; only stops change a mode otherwise |
| `ChannelFsm.LogIs` | src/agent/channel.c:841-870 | what the record of a channel gains in each step |
| `ChannelFsm.EstablishedConnection` | src/agent/channel.c:557-742 | in every run, for a channel without TLS those three also lie behind the last stop, so they belong to the connection that is up |
| `ChannelFsm.RevivedTls` | src/lib/session_tls.c:836-842 | five steps that make any new TLS channel established with no start behind its last stop: a failed handshake, then another on the socket that the stop left open |
| `ChannelFsm.HistoryIff` | src/lib/session_tls.c:836-842 | over all runs with an unchanged protocol an established channel has the three behind its last stop if and only if it does not run TLS or has no session, because closing a TLS session leaves its socket open |
| `ChannelFsm.NestedFailureLeavesConnect` | src/agent/channel.c:192-213 | a failure found by a start in Connect leaves the channel in Connect with nothing behind its last stop, and with its session down unless it runs TLS |
| `ChannelFsm.StrandedRun` | src/agent/channel.c:793-803 | over all runs a channel in Connect with its socket closed stays so exactly until a step that is listed; until then k starts mean k failed checks, the interval doubled k times up to 60, and no connect |
| `ChannelFsm.StrandedIsReached` | src/agent/channel.c:192-213 | three steps that bring any new channel without TLS there |
| `ChannelFsm.BackoffSettles` | src/agent/channel.c:682-692 | six such starts take any interval to 60, where it stays |
| `ChannelFsm.RestartIff` | src/agent/channel.c:565-568 | a channel stopped while its session is up can connect again if and only if it does not run TLS |
| `ChannelFsm.ShutDownStays` | src/lib/session_tls.c:836-842 | in every run a stopped TLS channel with its socket open never leaves Idle and Disable again |
| `ChannelFsm.NestIs` | src/agent/channel.c:192-213 | however long the connection is in progress, the nest of dispatches is the verdict's dispatch with the status written over |
| `ChannelFsm.TimerStartStaysInConnect` | src/agent/channel.c:841-870 | a timer start in Connect always ends in Connect; a ready socket takes the channel to HelloSent if and only if its session is up, the check accepts and no TLS handshake was first in progress; in the other cases the two differ only in the status written over |
| `ChannelFsm.StopSetsFailMode` | src/agent/channel.c:596-642 | after a stop the channel is not alive; the fail mode is set if then no channel of the dpid is, unless the stopped one was a live TLS channel, which leaves the mode alone; with another one alive the mode is left alone too |
| `ChannelFsm.TlsStopKeepsOpenFlow` | src/agent/channel.c:596-642 | a run in which a TLS channel is closed by its controller and its bridge stays in OpenFlow mode with no channel alive and none that can connect again |
| `ChannelFsm.OpenFlowIsServed` | src/agent/channel.c:596-642 | in every run, all states have a channel with its session up for every bridge in OpenFlow mode if and only if no step moves the last such channel away from its dpid |
| `ChannelFsm.DetachIff` | src/agent/channel.c:1243-1254 | changing a dpid keeps that property if and only if the channel was not the last one serving its bridge in OpenFlow mode |
| `ChannelFsm.DetachLeavesOpenFlow` | src/agent/channel_mgr.c:433-469 | a run in which a disabled channel is detached and its bridge stays in OpenFlow mode with no channel left |
| `ChannelAgent.Channel.Alive` | src/agent/channel.c:1754-1772 | the alive flag, an advanced status and an open session, all three |
| `ChannelAgent.Agent.HasAliveChannel` | src/agent/channel_mgr.c:660-676 | the count is nonzero exactly when some channel of the dpid is alive |
| `ChannelAgent.Agent.UpdateStatus` | src/agent/channel.c:514-550 | the status is set and nothing else changes |
| `ChannelAgent.Agent.StartConnecting` | src/agent/channel.c:557-593 | fails without a session, with one already up or when the connect fails; else the session is up and the channel alive |
| `ChannelAgent.Agent.StopConnection` | src/agent/channel.c:596-642 | the session is closed, its socket only without TLS, and the mode set from the fail mode when no channel is left alive |
| `ChannelAgent.Agent.ConnectFailing` | src/agent/channel.c:682-692 | the interval is doubled up to 60 and the connection stopped |
| `ChannelAgent.Agent.ConnectSucceeded` | src/agent/channel.c:664-679 | the interval is reset |
| `ChannelAgent.Agent.ConfirmHello` | src/agent/channel.c:710-742 | the mode is OpenFlow even when the timer then fails |
| `ChannelAgent.Agent.EventNolock` | src/agent/channel.c:841-870 | refines the dispatch function, re-entrant calls included |
| `ChannelAgent.Agent.SessionCheck` | src/lib/session.c:658-685 | succeeds or is in progress only on an open socket, and in progress only with TLS |
| `ChannelAgent.Agent.CheckConnection` | src/agent/channel.c:192-213 | refines the connect check |
| `ChannelAgent.Agent.SocketReady` | src/agent/channel.c:290-302 | the check runs in Connect and Disable only |
| `ChannelAgent.Agent.Enable` | src/agent/channel.c:1876-1880 | the channel is idle, from any status |
| `ChannelAgent.Agent.Disable` | src/agent/channel.c:1888-1896 | an alive channel is disabled with its session left open; another is left alone |
| `ChannelAgent.Agent.DpidSet` | src/agent/channel.c:1243-1254 | BUSY exactly for a live channel, else the dpid is set |
| `ChannelAgent.Agent.ProtocolSet` | src/agent/channel.c:1338-1353 | BUSY exactly while the socket is open, else the channel has a new session of the protocol |
| `ChannelTables.ApplyKeeps` | src/agent/channel_mgr.c:286-469 | every operation keeps the two tables consistent |
| `ChannelTables.RunKeeps` | src/agent/channel_mgr.c:286-469 | every run of create, dpid set, dpid unset, destroy and free keeps them consistent |
| `ChannelTables.CreateIs` | src/agent/channel_mgr.c:341-380 | a new name gets a channel without dpid that is in no list; nothing else changes |
| `ChannelTables.SetDpidIs` | src/agent/channel_mgr.c:383-430 | every result code, and that an OK attaches the channel to the dpid, where the lookup by its new id finds it; nothing else changes |
| `ChannelTables.UnsetDpidIs` | src/agent/channel_mgr.c:433-469 | every result code, and that an OK leaves the channel without dpid and in no list; nothing else changes |
| `ChannelTables.DestroyIs` | src/agent/channel_mgr.c:286-338 | the name is gone, the channel has no dpid and is in the free list alone; nothing else changes |
| `ChannelTables.ReapIs` | src/agent/channel_mgr.c:163-181 | the channel is out of the list and out of memory; nothing else changes |
| `ChannelTables.OwnedRun` | src/agent/channel.c:1743-1751 | an id given out on a dpid belongs to its channel alone in every later state |
| `ChannelTables.BarrierReachesRequester` | src/agent/ofp_barrier_handler.c:213-235 | whatever happened to the tables since the request, the lookup for a barrier reply finds the requesting channel or none |
| `ChannelTables.AttachedIff` | src/agent/channel_mgr.c:286-469 | over every run a channel keeps its dpid and id exactly until it is unset or destroyed, and never gets that id again |
| `ChannelTables.BarrierIff` | src/agent/ofp_barrier_handler.c:213-235 | the lookup for a barrier reply finds the requesting channel if and only if no operation since has unset its dpid or destroyed it |
| `ChannelManager.Manager.AddInternal` | src/agent/channel_mgr.c:341-380 | a new name gets a new channel without dpid; a known one is refused |
| `ChannelManager.Manager.SetDpid` | src/agent/channel_mgr.c:383-430 | refines the dpid set operation in all its result codes |
| `ChannelManager.Manager.UnsetDpid` | src/agent/channel_mgr.c:433-469 | refines the dpid unset operation in all its result codes |
| `ChannelManager.Manager.ListDelete` | src/agent/channel.c:1697-1708 | unlinks exactly that channel and keeps the order of the others |
| `ChannelManager.Manager.DeleteInternal` | src/agent/channel_mgr.c:286-338 | the channel loses its name and dpid and joins the free list |
| `ChannelManager.Manager.Reap` | src/agent/channel_mgr.c:163-181 | a free-list channel leaves the list and memory |
| `ChannelManager.Manager.LookupByChannelId` | src/agent/channel_mgr.c:628-657 | returns a channel of the dpid with that id if and only if there is one |
| `Roles.GenIsMoved` | src/agent/ofp_role.c:322-355 | after any run the cached generation id is the first one moved forward by the accepted distances, modulo 2^64 |
| `Roles.SupersededIsRefused` | src/agent/ofp_role.c:327-355 | an id the run has moved past by D is refused if and only if 0 < D mod 2^64 <= 2^63, and a refusal changes nothing |
| `Roles.AcceptsIff` | src/agent/ofp_role.c:327-355 | which requests pass the generation check, in every state |
| `Roles.FirstIdIff` | src/agent/ofp_role.c:340-352 | the first id of a dpid is cached, and the next one refused exactly when it is behind |
| `Roles.GenDefinedIff` | src/agent/ofp_role.c:340-352 | from any state, an id is cached after a run exactly when there was one or the run brought one |
| `Roles.GenFromStart` | src/agent/ofp_role.c:322-355 | the two laws from the start, where no id is cached: in every run, after the first request that brings one |
| `Roles.RolesAfter` | src/agent/ofp_role.c:49-87 | what a request does to every role: its channel has the role asked for, and other masters become slaves exactly when its channel gives MASTER up |
| `Roles.MastersArePromotions` | src/agent/ofp_role.c:59-87 | over any run the number of masters is the number of promotions since a master last stepped down |
| `Roles.SecondMasterIff` | src/agent/ofp_role.c:75-80 | a request creates a second master if and only if it promotes a channel while there is a master |
| `Roles.TwoMasters` | src/agent/ofp_role.c:75-80 | two channels that ask for MASTER one after the other both get it |
| `Roles.GuardOnRequestKeepsOne` | src/agent/ofp_role.c:75-80 | with the demotion guarded by the requested role no run ever has two masters |
| `RoleHandler.ChannelList.GenerationIdCheck` | src/agent/ofp_role.c:327-355 | accepts exactly the ids that are not behind, and caches exactly those |
| `RoleHandler.ChannelList.DemoteMasters` | src/agent/ofp_role.c:49-56 | every master becomes a slave and no other role changes |
| `RoleHandler.ChannelList.ChannelUpdate` | src/agent/ofp_role.c:59-87 | refines the role update; the reply carries the channel's new role |
| `RoleHandler.ChannelList.RequestHandle` | src/agent/ofp_role_request_handler.c:111-170 | refines one request; a stale id is an OpenFlow error and changes nothing |
| `Codegen.EncoderRuns` | src/agent/generator.c:234-333 | for every declaration list and packet the emitted encoder refuses exactly when the size check fails, and otherwise writes the members' bytes without any nested check failing |
| `Codegen.ScalarsOnWire` | src/agent/generator.c:108-124 | each scalar type has the width and byte order of the protocol |
| `Codegen.NoOtherScalars` | src/agent/generator.c:108-124 | no other type is a scalar |
| `Codegen.DecoderMoves` | src/agent/generator.c:346-469 | on any bytes the emitted decoder passes its check exactly when the structure's size is readable, then cannot fail, nested header decoder included |
| `Codegen.CursorsAgreeIff` | src/agent/generator.c:412-420 | the decoder consumes what the encoder wrote if and only if every nested structure that is not an ofp_header is encoded in no bytes |
| `Codegen.SneakRestoresIff` | src/agent/generator.c:482-606 | the sneak decoder gives the cursor back if and only if in addition no array of structures takes room; otherwise it is left too far back |
| `Codegen.DecoderReads` | src/agent/generator.c:346-469 | for such lists decoding restores every decoded member and leaves the others as they were |
| `Codegen.InvertsIff` | src/agent/generator.c:234-469 | the generated decoder inverts the generated encoder on all values if and only if every nested structure is without bytes or an ofp_header of such members, and no array of structures takes room |
| `Codegen.DecodeInvertsEncode` | src/agent/generator.c:234-469 | for such lists what the encoder writes into exactly enough room decodes to the same members, whatever follows |
| `Codegen.NestedStructIsLost` | src/agent/generator.c:412-420 | a scalar and a nested structure: four bytes written, two read back |
| `Codegen.RowsAreLost` | src/agent/generator.c:412-420 | an array of structures, whose rows no codec carries although the cursors agree |
| `Codegen.MatchedIff` | src/agent/generator.c:280-285 | the delimiting condition is exactly equality of the bytes encoded and decoded |
| `Codegen.FullIff` | src/agent/generator.c:602 | the delimiting condition is exactly that the decoder consumes the whole structure |
| `Generator.EmitScalar` | src/agent/generator.c:110-124 | the statement for a scalar or array member; gives up exactly at a scalar of unknown type |
| `Generator.GenerateEncoder` | src/agent/generator.c:234-333 | emits the encoder of the list, or gives up exactly at a scalar of unknown type |
| `Generator.GenerateReads` | src/agent/generator.c:346-469 | emits the decoder of the list |
| `Generator.GenerateSneak` | src/agent/generator.c:482-606 | emits the decoder followed by the rewind |

## Left out

- Sockets, TLS, poll, callout timers and threads: they appear only as answers and as the order of steps. Of a session
  the model has whether its socket is open and whether it runs TLS.
- Logging, packet dumps and trace functions.
- Data-plane calls and the statistics they deliver: only the lists they return are encoded.
- The other statistics handlers (port, queue, group, meter, table): they have the shape of the flow handler.
- The fixed part of a table-features request and the loop over its tables.
- Field, flag and capability validators: each is a single switch. The capability check of a multipart request is a
  parameter of the request.
- Experimenter actions, instructions and properties: the parsers reject them and the encoder writes nothing for them.
- The datastore, the command interpreters and module registration.
- The build variant OFPH_POLL_WRITING, and what other threads do while `channel_stop` has released its lock.
- Failing allocations, except where the source's result does not depend on them.
- Two registrations of one dpid that race between the unlocked check and the insertion, `ofp_bridgeq_mgr_clear` and
  the destruction of the manager.
- Role changes made through the datastore, and the role gates on messages.
- Waiting and retrying: that a timer eventually fires is not stated.
- Hello elements of other types in the encoder, which writes their header only; the version negotiation.
- MultipartTable.Channel.Put: the 64-bit length counter is unbounded here.
- ChannelManager.Manager.SetDpid: the 64-bit channel id counter is unbounded here, and allocating a new list succeeds.
- Framing.ChunkingDoesNotMatter: is about streams without a header of length 0, the only ones on which the reading
  loop ends (`Framing.LoopEndsIff`).
- StreamReader.Channel.Dispatch: the same of the bytes in the input buffer.
- StreamReader.Channel.Read: the same of the bytes received so far.
- PropertyParser.RoundsParse: is about steps that are not 0, the only ones on which the loop ends
  (`PropertyFormat.ActionsEndIff`).
- PropertyParser.PropertyParse: the same of its property.
- PropertyParser.PropertiesParse: the same of every property it reaches.
- Canonical.MessageIff: the message has at most 65535 bytes, as every OpenFlow message does.
- MultipartReply.MultipartAppend: the caller has encoded the first header, as every caller of the source does.
- ActionParser.SetFieldParse: the padding bytes behind a set-field value are skipped and not kept.
- MatchCodec.MatchParse: the list starts empty, as in every caller.
- BridgeRefs.RunIsSound: a run ends where a snapshot would follow the pointer to a freed queue, because nothing can be
  said of what happens then; `BridgeRefs.OverfilledRun` reaches such a state.
- BridgeRefs.InMemoryIffReferenced: the same.
- BridgeManager.Manager.Snapshot: the cached pointers are followed, so the cached queues must be in memory;
  `BridgeRefs.CacheIsLive` and `BridgeRefs.CacheStaysLiveIff` say when they are.
- BridgeManager.Manager.Round: the same of the cache it takes its queues from; what the handlers do to other state is
  not modelled.
- BridgeManager.Manager.Release: callers give back only references they hold.
- ChannelFsm.EstablishedConnection: is about channels without TLS; `ChannelFsm.HistoryIff` shows that it fails with TLS.
- ChannelAgent.Agent.ProtocolSet: the address family is not modelled, and creating the new session succeeds.
- TableFeaturesCodec.PropertyListEncode: the properties list no experimenter actions.
- Codegen.EncoderRuns: arrays of types the generator does not know are not considered.
