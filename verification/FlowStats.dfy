// Flow statistics replies: each entry nests a match and a list of instructions; the entries
// are fragmented over as many messages as they need.

module FlowStatsFormat {
  import opened Bytes
  import opened Tlv
  import opened ActionFormat
  import opened InstructionFormat
  import opened FieldSort
  import opened MatchFormat

  const FLOW_STATS: nat := 48

  datatype FlowStats = FlowStats(
    tableId: u8, pad: u8, durationSec: u32, durationNsec: u32,
    priority: u16, idleTimeout: u16, hardTimeout: u16, flags: u16, pad4: u32,
    cookie: u64, packetCount: u64, byteCount: u64,
    fields: seq<OxmField>, instructions: seq<Instruction>)

  predicate FlowOk(f: FlowStats)
  {
    FieldsOk(f.fields) && InstructionsOk(f.instructions)
  }

  // The fields of ofp_flow_stats behind its length.
  function Counters(f: FlowStats): (s: seq<u8>)
    ensures |s| == FLOW_STATS - 2
  {
    [f.tableId, f.pad] + Put32(f.durationSec) + Put32(f.durationNsec)
    + Put16(f.priority) + Put16(f.idleTimeout) + Put16(f.hardTimeout) + Put16(f.flags) + Put32(f.pad4)
    + Put64(f.cookie) + Put64(f.packetCount) + Put64(f.byteCount)
  }

  function FlowBytes(f: FlowStats): seq<u8>
  {
    var nested := MatchBytes(f.fields) + InstructionsBytes(f.instructions);
    Put16(Field(FLOW_STATS + |nested|)) + Counters(f) + nested
  }

  // The counters where the structure of the protocol has them.
  ghost predicate CountersAt(s: seq<u8>, f: FlowStats)
  {
    && |s| >= 48 && s[2] == f.tableId && s[3] == f.pad
    && Long(s, 4) == f.durationSec && Long(s, 8) == f.durationNsec
    && Word(s, 12) == f.priority && Word(s, 14) == f.idleTimeout && Word(s, 16) == f.hardTimeout
    && Word(s, 18) == f.flags && Long(s, 20) == f.pad4
    && Quad(s, 24) == f.cookie && Quad(s, 32) == f.packetCount && Quad(s, 40) == f.byteCount
  }

  lemma CountersRead(f: FlowStats, length: u16, rest: seq<u8>)
    ensures CountersAt(Put16(length) + Counters(f) + rest, f)
  {
    hide Put16;
    hide Put32;
    hide Put64;
    hide Word;
    hide Long;
    hide Quad;
    var s := Put16(length) + Counters(f) + rest;
    ShortCounters(s, f, length, rest);
    LongCounters(s, f, length, rest);
  }

  lemma ShortCounters(s: seq<u8>, f: FlowStats, length: u16, rest: seq<u8>)
    requires s == Put16(length) + Counters(f) + rest
    ensures s[2] == f.tableId && s[3] == f.pad
    ensures Word(s, 12) == f.priority && Word(s, 14) == f.idleTimeout && Word(s, 16) == f.hardTimeout
    ensures Word(s, 18) == f.flags
  {
    hide Put16;
    hide Put32;
    hide Put64;
    hide Word;
    assert s[12..14] == Put16(f.priority) && s[14..16] == Put16(f.idleTimeout);
    assert s[16..18] == Put16(f.hardTimeout) && s[18..20] == Put16(f.flags);
    WordAt(s, 12, f.priority);
    WordAt(s, 14, f.idleTimeout);
    WordAt(s, 16, f.hardTimeout);
    WordAt(s, 18, f.flags);
  }

  lemma LongCounters(s: seq<u8>, f: FlowStats, length: u16, rest: seq<u8>)
    requires s == Put16(length) + Counters(f) + rest
    ensures Long(s, 4) == f.durationSec && Long(s, 8) == f.durationNsec && Long(s, 20) == f.pad4
    ensures Quad(s, 24) == f.cookie && Quad(s, 32) == f.packetCount && Quad(s, 40) == f.byteCount
  {
    hide Put16;
    hide Put32;
    hide Put64;
    hide Long;
    hide Quad;
    assert s[4..8] == Put32(f.durationSec) && s[8..12] == Put32(f.durationNsec) && s[20..24] == Put32(f.pad4);
    assert s[24..32] == Put64(f.cookie) && s[32..40] == Put64(f.packetCount) && s[40..48] == Put64(f.byteCount);
    LongAt(s, 4, f.durationSec);
    LongAt(s, 8, f.durationNsec);
    LongAt(s, 20, f.pad4);
    QuadAt(s, 24, f.cookie);
    QuadAt(s, 32, f.packetCount);
    QuadAt(s, 40, f.byteCount);
  }

  lemma NestedReads(f: FlowStats)
    requires FlowOk(f) && Sorted(f.fields) && |FlowBytes(f)| <= 65535
    ensures
      var s := FlowBytes(f);
      && |s| >= 48 && Word(s, 0) == |s|
      && var r := ParseMatch(s[48..], |s| - 48, true);
      && r.Ok? && r.value == f.fields && r.used <= |s| - 48
      && ParseInstructions(s[48 + r.used..]) == Ok(f.instructions, |s| - 48 - r.used)
  {
    hide Word;
    hide Put16;
    hide Counters;
    hide FieldsBytes;
    hide InstructionsBytes;
    hide ParseMatch;
    hide ParseInstructions;
    var s, m, i := FlowBytes(f), MatchBytes(f.fields), InstructionsBytes(f.instructions);
    WordAt(s, 0, |s|);
    assert s[48..] == m + i;
    MatchRoundTrip(f.fields, i, |s| - 48, true);
    InstructionsRoundTrip(f.instructions);
    hide MatchBytes;
    assert s[48 + |m|..] == i;
  }

  // What a receiver finds in an entry: its extent, every counter, and behind them the match and
  // the instructions it was made from.
  lemma FlowEntryReads(f: FlowStats)
    requires FlowOk(f) && Sorted(f.fields) && |FlowBytes(f)| <= 65535
    ensures
      var s := FlowBytes(f);
      && |s| >= 48 && Word(s, 0) == |s| && CountersAt(s, f)
      && var r := ParseMatch(s[48..], |s| - 48, true);
      && r.Ok? && r.value == f.fields && r.used <= |s| - 48
      && ParseInstructions(s[48 + r.used..]) == Ok(f.instructions, |s| - 48 - r.used)
  {
    hide *;
    FlowParts(f);
    CountersRead(f, |FlowBytes(f)|, MatchBytes(f.fields) + InstructionsBytes(f.instructions));
    NestedReads(f);
  }

  lemma FlowParts(f: FlowStats)
    requires |FlowBytes(f)| <= 65535
    ensures FlowBytes(f) ==
      Put16(|FlowBytes(f)|) + Counters(f) + (MatchBytes(f.fields) + InstructionsBytes(f.instructions))
  {
    hide Put16;
    hide Counters;
    hide MatchBytes;
    hide InstructionsBytes;
  }
}

module FlowStatsReply {
  import opened Bytes
  import opened Results
  import opened Buffer
  import opened Tlv
  import opened ActionFormat
  import opened ActionEncoder
  import opened InstructionFormat
  import opened InstructionCodec
  import opened MatchFormat
  import opened MatchCodec
  import opened FlowStatsFormat
  import opened ReplyPacking
  import opened MultipartReply

  // The body of the loop of s_flow_stats_list_encode, into a buffer of its own.
  method FlowEncode(p: Pbuf, f: FlowStats) returns (ret: Code)
    requires CanEncode(p) && FlowOk(f)
    modifies p`putp, p`plen, p`data
    ensures Encoded(p, ret, FlowBytes(f))
  {
    hide Put16;
    hide Counters;
    hide MatchBytes;
    hide InstructionsBytes;
    hide FieldsOk;
    hide InstructionsOk;
    hide Overwrite;
    ghost var before := p.Written();
    ghost var nested := MatchBytes(f.fields) + InstructionsBytes(f.instructions);
    var at := p.putp;
    ret := p.Encode(Put16(0) + Counters(f));
    if ret != OK {
      return;
    }
    var matchLen, instLen, len;
    ret, matchLen := MatchListEncode(p, f.fields);
    if ret != OK {
      return;
    }
    ret, instLen := InstructionListEncode(p, f.instructions);
    if ret != OK {
      return;
    }
    assert p.Written() == before + (Put16(0) + (Counters(f) + nested));
    ret, len := LengthSum(matchLen, instLen);
    ret, len := LengthSum(len, FLOW_STATS);
    LengthSet(p, at, len);
    PatchFront(before, 0, Counters(f) + nested, len);
    assert FlowBytes(f) == Put16(len) + (Counters(f) + nested);
  }

  function Entries(flows: seq<FlowStats>): seq<seq<u8>>
  {
    seq(|flows|, i requires 0 <= i < |flows| => FlowBytes(flows[i]))
  }

  // One entry goes through a buffer of its own and is appended to the reply.
  method FlowAppend(list: PbufList, f: FlowStats) returns (ret: Code)
    requires list.Open() && FlowOk(f)
    modifies list, list.bufs[|list.bufs| - 1]
    ensures ret == OK <==> |FlowBytes(f)| <= CAPACITY
    ensures list.Open()
    ensures ret == OK ==> list.messages == Appended(old(list.messages), FlowBytes(f))
    ensures forall p :: p in list.bufs && p !in old(list.bufs) ==> fresh(p)
  {
    hide MessageOf;
    hide FlowBytes;
    hide FlowOk;
    hide Appended;
    var entry := new Pbuf.Alloc(PACKET_MAX);
    entry.plen := PACKET_MAX;
    ret := FlowEncode(entry, f);
    if ret == OK {
      assert entry.Unread() == entry.Written() == [] + FlowBytes(f) == FlowBytes(f);
      ret := MultipartAppend(list, entry);
    }
  }

  // s_flow_stats_list_encode
  method FlowListEncode(list: PbufList, base: ReplyHeader, flows: seq<FlowStats>) returns (ret: Code)
    requires list.Open() && list.messages == [Message(base, [])] && base.flags == 0
    requires forall f :: f in flows ==> FlowOk(f)
    modifies list, list.bufs
    ensures ret == OK <==> AllFit(Entries(flows))
    ensures list.Open()
    ensures forall p :: p in list.bufs && p !in old(list.bufs) ==> fresh(p)
    ensures ret == OK ==> Fits(Pack(Entries(flows))) && list.messages == Draft(base, Pack(Entries(flows)))
  {
    ret := OK;
    ghost var entries := Entries(flows);
    assert Draft(base, Pack([])) == [Message(base, [])];
    assert entries[..|entries|] == entries && entries[..0] == [];
    hide MessageOf;
    hide Draft;
    hide Appended;
    hide Pack;
    hide IsMessage;
    hide FlowBytes;
    for k := 0 to |flows|
      invariant ret == OK && list.Open() && AllFit(entries[..k])
      invariant forall p :: p in list.bufs && p !in old(list.bufs) ==> fresh(p)
      invariant Fits(Pack(entries[..k])) && list.messages == Draft(base, Pack(entries[..k]))
    {
      DraftStep(base, entries, k);
      assert list.bufs[|list.bufs| - 1] in list.bufs;
      ret := FlowAppend(list, flows[k]);
      if ret != OK {
        return;
      }
    }
  }

  // ofp_flow_stats_reply_create: the whole reply, ready to be sent. It can be made exactly
  // when every entry fits a message of its own.
  method ReplyCreate(version: u8, xid: u32, flows: seq<FlowStats>) returns (ret: Code, list: PbufList)
    requires forall f :: f in flows ==> FlowOk(f)
    ensures fresh(list) && list.Valid()
    ensures ret == OK <==> AllFit(Entries(flows))
    ensures ret == OK ==>
      && Fits(Pack(Entries(flows)))
      && list.messages == Render(FlowReplyHeader(version, xid), Pack(Entries(flows)))
      && forall i :: 0 <= i < |list.bufs| ==> list.bufs[i].Unread() == WireBytes(list.messages[i])
    // In bytes: every buffer answers the request, and behind the headers are the entries.
    ensures ret == OK ==>
      && list.bufs != []
      && (forall i :: 0 <= i < |list.bufs| ==>
            Answers(list.bufs[i].Unread(), version, xid, i < |list.bufs| - 1))
      && Flatten(BodiesIn(list.bufs)) == Flatten(Entries(flows))
  {
    hide MessageOf;
    hide FlowBytes;
    var base := FlowReplyHeader(version, xid);
    list := StartReply(base);
    ret := FlowListEncode(list, base, flows);
    if ret == OK {
      assert list.bufs[|list.bufs| - 1] in list.bufs;
      FinishReply(list);
      DraftFinished(base, Pack(Entries(flows)));
    }
    BufsHold(list);
    hide *;
    if ret == OK {
      AnswersAll(version, xid, Entries(flows), list.bufs);
    }
  }

  lemma BufsHold(list: PbufList)
    requires list.Valid()
    ensures forall p <- list.bufs :: p.Valid()
    ensures |list.bufs| == |list.messages|
    ensures forall i :: 0 <= i < |list.bufs| ==> list.bufs[i].Unread() == WireBytes(list.messages[i])
  {
    hide MessageOf;
    forall i | 0 <= i < |list.bufs|
      ensures list.bufs[i].Unread() == WireBytes(list.messages[i])
    {
      UnreadIsWire(list.bufs[i]);
    }
  }

  // A message that starts with a flow statistics reply header for the request.
  ghost predicate Answers(s: seq<u8>, version: u8, xid: u32, more: bool)
  {
    && 16 <= |s| <= 65535
    && s[0] == version && s[1] == 19 && Word(s, 2) == |s| && Long(s, 4) == xid
    && Word(s, 8) == 1 && Word(s, 10) == (if more then 1 else 0) && Long(s, 12) == 0
  }

  ghost function BodiesIn(bufs: seq<Pbuf>): seq<seq<u8>>
    requires forall p <- bufs :: p.Valid()
    reads bufs
  {
    seq(|bufs|, i requires 0 <= i < |bufs| && bufs[i].Valid() reads bufs =>
      var s := bufs[i].Unread(); if |s| < 16 then [] else s[16..])
  }

  lemma AnswerBytes(version: u8, xid: u32, body: seq<u8>, more: bool)
    requires |body| <= CAPACITY
    ensures
      var s := WireBytes(Framed(FlowReplyHeader(version, xid), body, more));
      Answers(s, version, xid, more) && s[16..] == body
  {
    var m := Framed(FlowReplyHeader(version, xid), body, more);
    ReplyRoundTrip(m.head, body);
    hide Word;
    hide Long;
    hide ReplyBytes;
  }

  lemma AnswersAll(version: u8, xid: u32, entries: seq<seq<u8>>, bufs: seq<Pbuf>)
    requires AllFit(entries) && Fits(Pack(entries)) && forall p <- bufs :: p.Valid()
    requires
      var ms := Render(FlowReplyHeader(version, xid), Pack(entries));
      |bufs| == |ms| && forall i :: 0 <= i < |bufs| ==> bufs[i].Unread() == WireBytes(ms[i])
    ensures bufs != []
    ensures forall i :: 0 <= i < |bufs| ==> Answers(bufs[i].Unread(), version, xid, i < |bufs| - 1)
    ensures Flatten(BodiesIn(bufs)) == Flatten(entries)
  {
    var base, groups := FlowReplyHeader(version, xid), Pack(entries);
    var ms := Render(base, groups);
    forall i | 0 <= i < |bufs|
      ensures Answers(bufs[i].Unread(), version, xid, i < |bufs| - 1)
      ensures BodiesIn(bufs)[i] == ms[i].body
    {
      hide Answers;
      hide Pack;
      hide Flatten;
      assert ms[i] == Framed(base, Flatten(groups[i]), i < |groups| - 1);
      AnswerBytes(version, xid, Flatten(groups[i]), i < |groups| - 1);
    }
    RenderedReplyCarries(base, entries);
    assert BodiesIn(bufs) == Bodies(ms);
  }

  const OFPT_MULTIPART_REPLY: u8 := 19
  const OFPMP_FLOW: u16 := 1

  function FlowReplyHeader(version: u8, xid: u32): ReplyHeader
  {
    ReplyHeader(OfpHeader(version, OFPT_MULTIPART_REPLY, 0, xid), OFPMP_FLOW, 0, 0)
  }

  lemma DraftFinished(base: ReplyHeader, groups: seq<seq<seq<u8>>>)
    requires groups != [] && Fits(groups) && base.flags == 0
    ensures
      var Message(head, body) := LastOf(Draft(base, groups));
      WithLast(Draft(base, groups), Message(head.(ofp := head.ofp.(length := HEADER + |body|)), body))
        == Render(base, groups)
  {}
}
