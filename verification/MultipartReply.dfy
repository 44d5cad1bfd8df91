// Fragmented multipart replies: entries are appended to the last message of a list; when
// one does not fit, the header of the full message is rewritten in place and a new message
// is opened with a copy of it.

// What a fragmented reply is, said without buffers.
module ReplyPacking {
  import opened Bytes

  const HEADER: nat := 16
  const CAPACITY: nat := PACKET_MAX - HEADER
  const OFPMPF_REPLY_MORE: u16 := 1

  datatype OfpHeader = OfpHeader(version: u8, kind: u8, length: u16, xid: u32)

  // pad holds the four padding bytes, read as one word.
  datatype ReplyHeader = ReplyHeader(ofp: OfpHeader, mpType: u16, flags: u16, pad: u32)

  datatype Message = Message(head: ReplyHeader, body: seq<u8>)

  function OfpBytes(h: OfpHeader): (s: seq<u8>)
    ensures |s| == 8
  {
    [h.version, h.kind] + Put16(h.length) + Put32(h.xid)
  }

  function OfpFrom(s: seq<u8>): OfpHeader
    requires |s| >= 8
  {
    OfpHeader(s[0], s[1], Word(s, 2), Long(s, 4))
  }

  function ReplyBytes(h: ReplyHeader): (s: seq<u8>)
    ensures |s| == HEADER
  {
    OfpBytes(h.ofp) + (Put16(h.mpType) + Put16(h.flags) + Put32(h.pad))
  }

  function ReplyFrom(s: seq<u8>): ReplyHeader
    requires |s| >= HEADER
  {
    ReplyHeader(OfpFrom(s), Word(s, 8), Word(s, 10), Long(s, 12))
  }

  lemma OfpRoundTrip(h: OfpHeader, rest: seq<u8>)
    ensures OfpFrom(OfpBytes(h) + rest) == h
  {
    var s := OfpBytes(h) + rest;
    assert s[2..4] == Put16(h.length) && s[4..8] == Put32(h.xid);
    assert Word(s, 2) == Word(s[2..4], 0) && Long(s, 4) == Long(s[4..8], 0);
  }

  lemma ReplyRoundTrip(h: ReplyHeader, rest: seq<u8>)
    ensures ReplyFrom(ReplyBytes(h) + rest) == h
  {
    var s := ReplyBytes(h) + rest;
    assert s == OfpBytes(h.ofp) + s[8..];
    OfpRoundTrip(h.ofp, s[8..]);
    assert s[8..10] == Put16(h.mpType) && s[10..12] == Put16(h.flags) && s[12..16] == Put32(h.pad);
    assert Word(s, 8) == Word(s[8..10], 0) && Word(s, 10) == Word(s[10..12], 0);
    assert Long(s, 12) == Long(s[12..16], 0);
  }

  lemma ReplyFromBytes(s: seq<u8>)
    requires |s| == HEADER
    ensures ReplyBytes(ReplyFrom(s)) == s
  {
    PutWord(s[2..4]);
    PutLong(s[4..8]);
    PutWord(s[8..10]);
    PutWord(s[10..12]);
    PutLong(s[12..16]);
    assert s == s[..2] + s[2..4] + s[4..8] + (s[8..10] + s[10..12] + s[12..16]);
  }

  // An entry joins the last group while the group stays within CAPACITY.
  function Add(groups: seq<seq<seq<u8>>>, entry: seq<u8>): seq<seq<seq<u8>>>
    requires groups != []
  {
    var n := |groups| - 1;
    if |Flatten(groups[n])| + |entry| <= CAPACITY then groups[n := groups[n] + [entry]]
    else groups + [[entry]]
  }

  // Greedy packing of a list of entries into groups, one group a message.
  function Pack(entries: seq<seq<u8>>): (groups: seq<seq<seq<u8>>>)
    ensures groups != []
    decreases |entries|
  {
    if entries == [] then [[]]
    else Add(Pack(entries[..|entries| - 1]), entries[|entries| - 1])
  }

  predicate Fits(groups: seq<seq<seq<u8>>>)
  {
    forall i :: 0 <= i < |groups| ==> |Flatten(groups[i])| <= CAPACITY
  }

  // A message with a given body: its length is its byte count, and it is marked REPLY_MORE
  // when another one follows.
  function Framed(base: ReplyHeader, body: seq<u8>, more: bool): Message
    requires |body| <= CAPACITY
  {
    Message(base.(flags := if more then OFPMPF_REPLY_MORE else 0,
                  ofp := base.ofp.(length := HEADER + |body|)), body)
  }

  // The messages that carry the groups.
  function Render(base: ReplyHeader, groups: seq<seq<seq<u8>>>): (ms: seq<Message>)
    requires Fits(groups)
    ensures |ms| == |groups|
  {
    seq(|groups|, i requires 0 <= i < |groups| => Framed(base, Flatten(groups[i]), i < |groups| - 1))
  }

  // Every entry fits a message of its own.
  predicate AllFit(entries: seq<seq<u8>>)
  {
    forall i :: 0 <= i < |entries| ==> |entries[i]| <= CAPACITY
  }

  // Packing neither splits, drops, duplicates nor reorders an entry.
  lemma {:induction false} PackKeepsEntries(entries: seq<seq<u8>>)
    ensures Flatten(Pack(entries)) == entries
    decreases |entries|
  {
    if entries != [] {
      var init, entry := entries[..|entries| - 1], entries[|entries| - 1];
      PackKeepsEntries(init);
      var groups := Pack(init);
      var before, last := groups[..|groups| - 1], groups[|groups| - 1];
      FlattenAppend(before, last);
      assert groups == before + [last] && entries == init + [entry];
      if |Flatten(last)| + |entry| <= CAPACITY {
        FlattenAppend(before, last + [entry]);
        assert Pack(entries) == before + [last + [entry]];
      } else {
        FlattenAppend(groups, [entry]);
      }
    } else {
      assert Flatten(Pack(entries)) == [] + Flatten(Pack(entries)[1..]);
    }
  }

  lemma AddFits(groups: seq<seq<seq<u8>>>, entry: seq<u8>)
    requires groups != []
    ensures Fits(Add(groups, entry)) <==> Fits(groups) && |entry| <= CAPACITY
  {
    var n, after := |groups| - 1, Add(groups, entry);
    FlattenAppend(groups[n], entry);
    FlattenAppend<u8>([], entry);
    assert [] + [entry] == [entry];
    assert forall i :: 0 <= i < n ==> after[i] == groups[i];
    if |Flatten(groups[n])| + |entry| > CAPACITY {
      assert after[n] == groups[n] && after[n + 1] == [entry];
    }
  }

  // Every group fits a message exactly when every entry does.
  lemma {:induction false} PackFits(entries: seq<seq<u8>>)
    ensures AllFit(entries) <==> Fits(Pack(entries))
    decreases |entries|
  {
    if entries != [] {
      var init, entry := entries[..|entries| - 1], entries[|entries| - 1];
      PackFits(init);
      AddFits(Pack(init), entry);
      assert entries == init + [entry];
      assert AllFit(entries) <==> AllFit(init) && |entry| <= CAPACITY;
    }
  }

  // Every group after the first starts with an entry the group before had no room for.
  lemma {:induction false} PackIsGreedy(entries: seq<seq<u8>>, i: nat)
    requires 1 <= i < |Pack(entries)|
    ensures NoRoom(Pack(entries)[i - 1], Pack(entries)[i])
    decreases |entries|
  {
    var init := entries[..|entries| - 1];
    if i < |Pack(init)| {
      PackIsGreedy(init, i);
    }
  }

  // What a receiver is promised about the header of one message of a reply.
  ghost predicate HeadOk(base: ReplyHeader, m: Message, more: bool)
  {
    && m.head.ofp.length == 16 + |m.body| <= 65535
    && m.head.flags == (if more then 1 else 0)
    && m.head.ofp.xid == base.ofp.xid && m.head.ofp.version == base.ofp.version
    && m.head.ofp.kind == base.ofp.kind && m.head.mpType == base.mpType
  }

  // What a receiver is promised about the list of messages that carries entries.
  ghost predicate Carries(base: ReplyHeader, entries: seq<seq<u8>>, groups: seq<seq<seq<u8>>>, ms: seq<Message>)
  {
    // whole entries, in order
    && Flatten(groups) == entries
    && |ms| == |groups| > 0
    && (forall i :: 0 <= i < |ms| ==> ms[i].body == Flatten(groups[i]))
    // headers
    && (forall i :: 0 <= i < |ms| ==> HeadOk(base, ms[i], i < |ms| - 1))
    // no message could have taken the entry that opens the next one
    && (forall i :: 1 <= i < |groups| ==> NoRoom(groups[i - 1], groups[i]))
  }

  predicate NoRoom(group: seq<seq<u8>>, next: seq<seq<u8>>)
  {
    next != [] && 16 + |Flatten(group)| + |next[0]| > 65535
  }

  function Bodies(ms: seq<Message>): seq<seq<u8>>
  {
    seq(|ms|, i requires 0 <= i < |ms| => ms[i].body)
  }

  lemma {:induction false} FlattenTwice(groups: seq<seq<seq<u8>>>, bodies: seq<seq<u8>>)
    requires |groups| == |bodies|
    requires forall i :: 0 <= i < |groups| ==> bodies[i] == Flatten(groups[i])
    ensures Flatten(bodies) == Flatten(Flatten(groups))
  {
    if groups != [] {
      FlattenConcat(groups[0], Flatten(groups[1..]));
      FlattenTwice(groups[1..], bodies[1..]);
    }
  }

  // The main property of fragmentation, and that the bodies add up to the entries.
  lemma RenderedReplyCarries(base: ReplyHeader, entries: seq<seq<u8>>)
    requires AllFit(entries)
    ensures Fits(Pack(entries))
    ensures Carries(base, entries, Pack(entries), Render(base, Pack(entries)))
    ensures Flatten(Bodies(Render(base, Pack(entries)))) == Flatten(entries)
  {
    PackFits(entries);
    PackKeepsEntries(entries);
    hide Pack;
    hide Flatten;
    var groups := Pack(entries);
    var ms := Render(base, groups);
    forall i | 0 <= i < |ms|
      ensures ms[i].body == Flatten(groups[i]) && HeadOk(base, ms[i], i < |ms| - 1)
    {
      assert ms[i] == Framed(base, Flatten(groups[i]), i < |groups| - 1);
    }
    hide Render;
    hide HeadOk;
    forall i | 1 <= i < |groups|
      ensures NoRoom(groups[i - 1], groups[i])
    {
      PackIsGreedy(entries, i);
    }
    FlattenTwice(groups, Bodies(ms));
  }
}

module MultipartReply {
  import opened Bytes
  import opened Results
  import opened Buffer
  import opened ReplyPacking

  // A full-size buffer that holds at least a header, read from the start.
  ghost predicate IsMessage(p: Pbuf)
    reads p
  {
    p.Valid() && p.size == PACKET_MAX && p.getp == 0 && HEADER <= p.putp
  }

  ghost function MessageOf(p: Pbuf): (m: Message)
    requires IsMessage(p)
    reads p
    ensures |m.body| == p.putp - HEADER
  {
    Message(ReplyFrom(p.data), p.data[HEADER..p.putp])
  }

  // The bytes of a message on the wire.
  function WireBytes(m: Message): seq<u8>
  {
    ReplyBytes(m.head) + m.body
  }

  lemma UnreadIsWire(p: Pbuf)
    requires IsMessage(p)
    ensures p.Unread() == WireBytes(MessageOf(p))
  {
    ReplyFromBytes(p.data[..HEADER]);
    assert ReplyFrom(p.data[..HEADER]) == ReplyFrom(p.data);
  }

  // pbuf_list: the buffers of one reply, oldest first, and the messages they hold.
  class PbufList {
    var bufs: seq<Pbuf>
    ghost var messages: seq<Message>

    ghost predicate Valid()
      reads this, bufs
    {
      && |bufs| == |messages|
      && (forall i :: 0 <= i < |bufs| ==> IsMessage(bufs[i]) && MessageOf(bufs[i]) == messages[i])
      && (forall i, j :: 0 <= i < j < |bufs| ==> bufs[i] != bufs[j])
    }

    // The last message still takes entries: plen is the room left in it.
    ghost predicate Open()
      reads this, bufs
    {
      && Valid() && bufs != []
      && var last := bufs[|bufs| - 1];
         last.plen == PACKET_MAX - last.putp
    }

    constructor ()
      ensures Valid() && bufs == []
    {
      bufs, messages := [], [];
    }
  }

  // pbuf_reset, pbuf_plen_set and an encoder: write b over the first bytes of the buffer.
  method Rewrite(p: Pbuf, room: nat, b: seq<u8>) returns (ret: Code)
    requires p.Valid() && room <= p.size
    modifies p
    ensures p.Valid()
    ensures ret == if |b| <= room then OK else OUT_OF_RANGE
    ensures ret == OK ==>
      p.Cursor() == Cursors(0, |b|, room - |b|) && p.data == Overwrite(old(p.data), 0, b)
    ensures ret != OK ==> p.data == old(p.data)
  {
    p.Reset(room);
    ret := p.Encode(b);
  }

  // The first n bytes of a message, read with the cursors moved there.
  method Preview(p: Pbuf, n: nat) returns (raw: seq<u8>)
    requires p.Valid() && n <= HEADER
    modifies p`getp, p`putp, p`plen
    ensures p.Valid() && raw == p.data[..n]
  {
    p.Load(Cursors(0, n, n));
    var ret;
    ret, raw := p.Decode(n);
  }

  // The header of a full message, and of the one opened after it.

  function Continued(head: ReplyHeader, length: u16): ReplyHeader
  {
    head.(flags := OFPMPF_REPLY_MORE, ofp := head.ofp.(length := length))
  }

  function Opened(head: ReplyHeader): ReplyHeader
  {
    head.(flags := 0, ofp := head.ofp.(length := HEADER))
  }

  // ofp_header_mp_copy: mark src as followed by more, with its length filled in, and start
  // dst with the same header. Both cursors are moved to do it; those of src are put back.
  method HeaderMpCopy(dst: Pbuf, src: Pbuf) returns (ret: Code)
    requires dst.Valid() && src.Valid() && dst != src && dst.plen <= dst.size
    modifies dst, src
    ensures dst.Valid() && src.Valid()
    ensures ret == OK <==> |old(src.Unread())| <= 65535 && HEADER <= old(dst.plen)
    ensures ret == OK ==>
      var head := ReplyFrom(old(src.data));
      && src.Cursor() == old(src.Cursor())
      && src.data == Overwrite(old(src.data), 0, ReplyBytes(Continued(head, |old(src.Unread())|)))
      && dst.Cursor() == Cursors(0, HEADER, old(dst.plen) - HEADER)
      && dst.data == Overwrite(old(dst.data), 0, ReplyBytes(Opened(head)))
  {
    var saved := src.Cursor();
    var room := dst.plen;
    var length;
    ret, length := src.Length();
    if ret != OK {
      return;
    }
    var raw := Preview(src, HEADER);
    var head := ReplyFrom(raw);
    HeadOfPrefix(src.data);
    hide ReplyFrom;
    hide ReplyBytes;
    hide Overwrite;
    ret := Rewrite(src, HEADER, ReplyBytes(Continued(head, length)));
    ret := Rewrite(dst, room, ReplyBytes(Opened(head)));
    if ret == OK {
      src.Load(saved);
    }
  }

  lemma HeadOfPrefix(data: seq<u8>)
    requires |data| >= HEADER
    ensures ReplyFrom(data[..HEADER]) == ReplyFrom(data)
  {}

  // ofp_header_length_set: rewrite the length of the message in place.
  method HeaderLengthSet(p: Pbuf, length: u16)
    requires p.Valid()
    modifies p
    ensures p.Valid() && p.Cursor() == old(p.Cursor())
    ensures p.data == Overwrite(old(p.data), 0, OfpBytes(OfpFrom(old(p.data)).(length := length)))
  {
    var saved := p.Cursor();
    var raw := Preview(p, 8);
    var ret := Rewrite(p, 8, OfpBytes(OfpFrom(raw).(length := length)));
    p.Load(saved);
  }

  // pbuf_append, seen as adding to the body of a message.
  method AppendBody(p: Pbuf, src: Pbuf) returns (ret: Code)
    requires IsMessage(p) && p.plen == PACKET_MAX - p.putp
    requires src.Valid() && src != p
    modifies p
    ensures IsMessage(p) && p.plen == PACKET_MAX - p.putp
    ensures ret == OK <==> |old(MessageOf(p)).body| + |src.Unread()| <= CAPACITY
    ensures ret != OK ==> ret == OUT_OF_RANGE
    ensures MessageOf(p) ==
      var m := old(MessageOf(p));
      if ret == OK then Message(m.head, m.body + src.Unread()) else m
  {
    ret := p.Append(src);
    assert p.data[HEADER..p.putp] == p.Written()[HEADER..];
    assert old(p.data[HEADER..p.putp]) == old(p.Written())[HEADER..];
    assert forall i :: 0 <= i < HEADER ==> p.data[i] == p.Written()[i] == old(p.Written())[i];
  }

  // ofp_header_mp_copy, seen as closing one message and opening the next.
  method OpenNext(dst: Pbuf, last: Pbuf)
    requires IsMessage(last) && last != dst
    requires dst.Valid() && dst.size == dst.plen == PACKET_MAX
    modifies dst, last
    ensures IsMessage(last)
    ensures IsMessage(dst) && dst.plen == PACKET_MAX - dst.putp
    ensures MessageOf(last) ==
      var Message(head, body) := old(MessageOf(last)); Message(Continued(head, HEADER + |body|), body)
    ensures MessageOf(dst) == Message(Opened(old(MessageOf(last)).head), [])
  {
    var ret := HeaderMpCopy(dst, last);
    ghost var head := old(MessageOf(last)).head;
    ReplyRoundTrip(Continued(head, last.putp), old(last.data)[HEADER..]);
    ReplyRoundTrip(Opened(head), old(dst.data)[HEADER..]);
    assert old(last.data)[..0] + ReplyBytes(Continued(head, last.putp)) == ReplyBytes(Continued(head, last.putp));
    assert old(dst.data)[..0] + ReplyBytes(Opened(head)) == ReplyBytes(Opened(head));
  }

  function LastOf(ms: seq<Message>): Message
    requires ms != []
  {
    ms[|ms| - 1]
  }

  function WithLast(ms: seq<Message>, m: Message): seq<Message>
    requires ms != []
  {
    ms[|ms| - 1 := m]
  }

  // The messages after one entry is appended.
  function Appended(ms: seq<Message>, entry: seq<u8>): seq<Message>
    requires ms != [] && |LastOf(ms).body| <= CAPACITY
  {
    var Message(head, body) := LastOf(ms);
    if |body| + |entry| <= CAPACITY then WithLast(ms, Message(head, body + entry))
    else WithLast(ms, Message(Continued(head, HEADER + |body|), body)) + [Message(Opened(head), entry)]
  }

  // pbuf_append to the last message of the list.
  method AppendLast(list: PbufList, src: Pbuf) returns (ret: Code)
    requires list.Open() && src.Valid()
    requires src !in list.bufs
    modifies list`messages, list.bufs[|list.bufs| - 1]
    ensures list.Open()
    ensures ret == OK <==> |LastOf(old(list.messages)).body| + |src.Unread()| <= CAPACITY
    ensures ret != OK ==> ret == OUT_OF_RANGE
    ensures list.messages == if ret == OK
      then WithLast(old(list.messages), LastOf(old(list.messages)).(body := LastOf(old(list.messages)).body + src.Unread()))
      else old(list.messages)
  {
    hide MessageOf;
    ret := AppendBody(list.bufs[|list.bufs| - 1], src);
    if ret == OK {
      list.messages := WithLast(list.messages, LastOf(list.messages).(body := LastOf(list.messages).body + src.Unread()));
    }
  }

  // A new message at the end of the list, after the header of the last one is closed.
  method OpenLast(list: PbufList) returns (dst: Pbuf)
    requires list.Open()
    modifies list, list.bufs[|list.bufs| - 1]
    ensures list.Open()
    ensures list.bufs == old(list.bufs) + [dst] && fresh(dst)
    ensures list.messages ==
      var Message(head, body) := LastOf(old(list.messages));
      WithLast(old(list.messages), Message(Continued(head, HEADER + |body|), body)) + [Message(Opened(head), [])]
  {
    hide MessageOf;
    dst := new Pbuf.Alloc(PACKET_MAX);
    dst.plen := PACKET_MAX;
    var last := list.bufs[|list.bufs| - 1];
    OpenNext(dst, last);
    list.bufs := list.bufs + [dst];
    ghost var Message(head, body) := LastOf(list.messages);
    list.messages := WithLast(list.messages, Message(Continued(head, HEADER + |body|), body))
      + [Message(Opened(head), [])];
  }

  // ofp_multipart_append. The first message's header has been encoded by the caller.
  method MultipartAppend(list: PbufList, src: Pbuf) returns (ret: Code)
    requires list.Open() && src.Valid()
    requires src !in list.bufs
    modifies list, list.bufs[|list.bufs| - 1]
    ensures ret == OK <==> |src.Unread()| <= CAPACITY
    ensures list.Open()
    ensures ret == OK ==> list.messages == Appended(old(list.messages), src.Unread())
    ensures old(list.bufs) <= list.bufs
    ensures forall p :: p in list.bufs && p !in old(list.bufs) ==> fresh(p)
  {
    hide MessageOf;
    ret := AppendLast(list, src);
    if ret == OUT_OF_RANGE {
      var dst := OpenLast(list);
      ret := AppendLast(list, src);
      assert [] + src.Unread() == src.Unread();
    }
  }

  // The messages while entries are still being appended: the last length is not final.
  function Draft(base: ReplyHeader, groups: seq<seq<seq<u8>>>): seq<Message>
    requires Fits(groups)
  {
    seq(|groups|, i requires 0 <= i < |groups| =>
      var body := Flatten(groups[i]);
      Message(if i < |groups| - 1 then Continued(base, HEADER + |body|)
              else if i == 0 then base else Opened(base), body))
  }

  // Appending an entry keeps the messages in step with the packing.
  lemma AppendedIsAdded(base: ReplyHeader, groups: seq<seq<seq<u8>>>, entry: seq<u8>)
    requires groups != [] && Fits(groups) && |entry| <= CAPACITY && base.flags == 0
    ensures Fits(Add(groups, entry))
    ensures Appended(Draft(base, groups), entry) == Draft(base, Add(groups, entry))
  {
    var n := |groups| - 1;
    FlattenAppend(groups[n], entry);
    FlattenAppend<u8>([], entry);
    assert [] + [entry] == [entry] && Flatten<u8>([]) + entry == entry;
    var ms, after := Draft(base, groups), Draft(base, Add(groups, entry));
    assert forall i :: 0 <= i < n ==> after[i] == ms[i];
    assert Appended(ms, entry)[n] == after[n];
  }

  lemma DraftStep(base: ReplyHeader, entries: seq<seq<u8>>, k: nat)
    requires k < |entries| && AllFit(entries[..k]) && Fits(Pack(entries[..k])) && base.flags == 0
    ensures |entries[k]| > CAPACITY ==> !AllFit(entries)
    ensures |entries[k]| <= CAPACITY ==>
      && AllFit(entries[..k + 1]) && Fits(Pack(entries[..k + 1]))
      && Appended(Draft(base, Pack(entries[..k])), entries[k]) == Draft(base, Pack(entries[..k + 1]))
  {
    if |entries[k]| <= CAPACITY {
      assert entries[..k + 1][..k] == entries[..k];
      AppendedIsAdded(base, Pack(entries[..k]), entries[k]);
    }
  }

  // The first message of a reply: pbuf_list_last_get and the encoded header.
  method StartReply(base: ReplyHeader) returns (list: PbufList)
    ensures fresh(list) && fresh(list.bufs)
    ensures list.Open() && list.messages == [Message(base, [])]
  {
    list := new PbufList();
    var p := new Pbuf.Alloc(PACKET_MAX);
    p.plen := PACKET_MAX;
    var ret := p.Encode(ReplyBytes(base));
    ReplyRoundTrip(base, []);
    assert p.data[..HEADER] == p.Written() == ReplyBytes(base) + [];
    list.bufs, list.messages := [p], [Message(base, [])];
  }

  // pbuf_length_get, ofp_header_length_set and pbuf_plen_reset on the last message.
  method CloseMessage(p: Pbuf)
    requires IsMessage(p)
    modifies p
    ensures IsMessage(p)
    ensures MessageOf(p) ==
      var Message(head, body) := old(MessageOf(p));
      Message(head.(ofp := head.ofp.(length := HEADER + |body|)), body)
  {
    var ret, length := p.Length();
    HeaderLengthSet(p, length);
    p.plen := 0;
    LengthSetInData(old(p.data), length);
    hide Overwrite;
    hide ReplyFrom;
    assert p.data[HEADER..p.putp] == p.data[HEADER..][..p.putp - HEADER];
    assert old(p.data[HEADER..p.putp]) == old(p.data)[HEADER..][..p.putp - HEADER];
  }

  // The end of ofp_flow_stats_reply_create.
  method FinishReply(list: PbufList)
    requires list.Open()
    modifies list`messages, list.bufs[|list.bufs| - 1]
    ensures list.Valid()
    ensures list.messages ==
      var Message(head, body) := LastOf(old(list.messages));
      WithLast(old(list.messages), Message(head.(ofp := head.ofp.(length := HEADER + |body|)), body))
  {
    hide MessageOf;
    CloseMessage(list.bufs[|list.bufs| - 1]);
    ghost var Message(head, body) := LastOf(list.messages);
    list.messages := WithLast(list.messages, Message(head.(ofp := head.ofp.(length := HEADER + |body|)), body));
  }

  lemma LengthSetInData(data: seq<u8>, length: u16)
    requires |data| >= HEADER
    ensures
      var after := Overwrite(data, 0, OfpBytes(OfpFrom(data).(length := length)));
      && after[HEADER..] == data[HEADER..]
      && ReplyFrom(after) == ReplyFrom(data).(ofp := ReplyFrom(data).ofp.(length := length))
  {
    var b := OfpBytes(OfpFrom(data).(length := length));
    assert data[..0] + b == b;
    OfpRoundTrip(OfpFrom(data).(length := length), data[8..]);
  }
}
