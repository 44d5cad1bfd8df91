// Group buckets: a 16-byte header that starts with the length, then a list of actions.

module BucketFormat {
  import opened Bytes
  import opened Tlv
  import opened ActionFormat

  datatype Bucket = Bucket(weight: u16, watchPort: u32, watchGroup: u32, pad: u32, acts: seq<Action>)

  predicate BucketsOk(bs: seq<Bucket>)
  {
    forall b :: b in bs ==> ActionsOk(b.acts)
  }

  function Tail(b: Bucket): (s: seq<u8>)
    ensures |s| == 14
  {
    Put16(b.weight) + Put32(b.watchPort) + Put32(b.watchGroup) + Put32(b.pad)
  }

  function BucketBytes(b: Bucket): seq<u8>
  {
    var acts := ActionsBytes(b.acts);
    Put16(Field(16 + |acts|)) + Tail(b) + acts
  }

  function BucketsBytes(bs: seq<Bucket>): seq<u8>
  {
    if bs == [] then [] else BucketBytes(bs[0]) + BucketsBytes(bs[1..])
  }

  // ofp_bucket_parse: the actions must end exactly where the length says.
  function ParseBucket(s: seq<u8>): (r: Parsed<Bucket>)
    ensures r.Ok? ==> 16 <= r.used <= |s| && r.used == Word(s, 0) && ActionsOk(r.value.acts)
  {
    if |s| < 16 then Fail(BAD_REQUEST_LEN)
    else
      var len: int := Word(s, 0);
      // The subtraction below is unsigned in the source: a length under 16 is enormous.
      if len < 16 || |s| - 16 < len - 16 then Fail(BAD_REQUEST_LEN)
      else match ParseActions(s[16..], len - 16)
        case Fail(f) => Fail(f)
        case Ok(acts, n) =>
          if 16 + n != len then Fail(BAD_REQUEST_LEN)
          else Ok(Bucket(Word(s, 2), Long(s, 4), Long(s, 8), Long(s, 12), acts), len)
  }

  // s_parse_bucket_list
  function ParseBuckets(s: seq<u8>): (r: Parsed<seq<Bucket>>)
    ensures r.Ok? ==> r.used == |s| && BucketsOk(r.value)
    decreases |s|
  {
    if s == [] then Ok([], 0)
    else match ParseBucket(s)
      case Fail(f) => Fail(f)
      case Ok(b, n) =>
        match ParseBuckets(s[n..])
        case Fail(f) => Fail(f)
        case Ok(bs, m) => Ok([b] + bs, n + m)
  }

  lemma HeadFields(b: Bucket, len: u16, rest: seq<u8>)
    ensures
      var s := Put16(len) + Tail(b) + rest;
      && Word(s, 0) == len && Word(s, 2) == b.weight && s[16..] == rest
      && Long(s, 4) == b.watchPort && Long(s, 8) == b.watchGroup && Long(s, 12) == b.pad
  {
    hide Word;
    hide Long;
    hide Put16;
    hide Put32;
    var s := Put16(len) + Tail(b) + rest;
    WordAt(s, 0, len);
    WordAt(s, 2, b.weight);
    LongAt(s, 4, b.watchPort);
    LongAt(s, 8, b.watchGroup);
    LongAt(s, 12, b.pad);
  }

  lemma BucketRoundTrip(b: Bucket, rest: seq<u8>)
    requires ActionsOk(b.acts) && |BucketBytes(b)| <= 65535
    ensures ParseBucket(BucketBytes(b) + rest) == Ok(b, |BucketBytes(b)|)
  {
    hide Word;
    hide Long;
    hide Put16;
    hide Tail;
    hide ActionsBytes;
    hide ParseActions;
    var acts := ActionsBytes(b.acts);
    ActionsRoundTrip(b.acts, rest);
    HeadFields(b, 16 + |acts|, acts + rest);
    assert BucketBytes(b) + rest == Put16(16 + |acts|) + Tail(b) + (acts + rest);
  }

  lemma ParseBucketsCons(head: seq<u8>, tail: seq<u8>)
    requires ParseBucket(head + tail).Ok? && ParseBucket(head + tail).used == |head|
    ensures ParseBuckets(head + tail) ==
      match ParseBuckets(tail)
      case Fail(f) => Fail(f)
      case Ok(bs, m) => Ok([ParseBucket(head + tail).value] + bs, |head| + m)
  {
    hide ParseBucket;
    assert (head + tail)[|head|..] == tail;
  }

  // A list of buckets, with the actions nested in each, survives the wire.
  lemma {:induction false} BucketsRoundTrip(bs: seq<Bucket>)
    requires BucketsOk(bs) && |BucketsBytes(bs)| <= 65535
    ensures ParseBuckets(BucketsBytes(bs)) == Ok(bs, |BucketsBytes(bs)|)
  {
    hide BucketBytes;
    hide ParseBucket;
    if bs != [] {
      var head, tail := BucketBytes(bs[0]), BucketsBytes(bs[1..]);
      BucketRoundTrip(bs[0], tail);
      BucketsRoundTrip(bs[1..]);
      ParseBucketsCons(head, tail);
      assert bs == [bs[0]] + bs[1..];
    }
  }
}

module BucketCodec {
  import opened Bytes
  import opened Results
  import opened Buffer
  import opened Tlv
  import opened ActionFormat
  import opened ActionParser
  import opened ActionEncoder
  import opened BucketFormat

  // ofp_bucket_parse
  method BucketParse(p: Pbuf) returns (r: Parsed<Bucket>)
    requires p.Readable()
    modifies p`getp, p`plen
    ensures p.Readable() && r == ParseBucket(old(p.Rest()))
    ensures r.Ok? ==> Moved(p, r.used)
  {
    hide ParseActions;
    ghost var s := p.Rest();
    var head := p.getp;
    var ret, b := p.Decode(16);
    if ret != OK {
      return Fail(BAD_REQUEST_LEN);
    }
    assert forall i :: 0 <= i < 16 ==> b[i] == s[i];
    var len: int := Word(b, 0);
    var weight, port, group, pad := Word(b, 2), Long(b, 4), Long(b, 8), Long(b, 12);
    assert len == Word(s, 0) && weight == Word(s, 2) && port == Long(s, 4) && group == Long(s, 8) && pad == Long(s, 12);
    hide Word;
    hide Long;
    if len < 16 || p.plen < len - 16 {
      return Fail(BAD_REQUEST_LEN);
    }
    var acts := ActionParse(p, len - 16);
    if acts.Fail? {
      return Fail(acts.fault);
    }
    if head + len != p.getp {
      return Fail(BAD_REQUEST_LEN);
    }
    return Ok(Bucket(weight, port, group, pad, acts.value), len);
  }

  lemma {:induction false} ParseBucketsStep(s: seq<u8>)
    ensures ParseBuckets(s) ==
      if s == [] then Ok([], 0)
      else match ParseBucket(s)
        case Fail(f) => Fail(f)
        case Ok(x, n) => Prepend([x], n, ParseBuckets(s[n..]))
  {}

  // s_parse_bucket_list: the loop ends on every input.
  method BucketsParse(p: Pbuf) returns (r: Parsed<seq<Bucket>>)
    requires p.Readable()
    modifies p`getp, p`plen
    ensures p.Readable() && r == ParseBuckets(old(p.Rest()))
    ensures r.Ok? ==> p.plen == 0
  {
    hide ParseBucket;
    hide ParseBuckets;
    hide Prepend;
    ghost var s := p.Rest();
    var start := p.getp;
    var bs: seq<Bucket> := [];
    PrependNothing(ParseBuckets(s));
    while p.plen > 0
      invariant p.Readable() && start <= p.getp
      invariant ParseBuckets(s) == Prepend(bs, p.getp - start, ParseBuckets(p.Rest()))
      decreases p.plen
    {
      ghost var n := p.getp - start;
      ParseBucketsStep(p.Rest());
      var one := BucketParse(p);
      if one.Fail? {
        PrependFail(bs, n, one.fault);
        return Fail(one.fault);
      }
      PrependOne(bs, n, one.value, one.used, ParseBuckets(p.Rest()));
      bs := bs + [one.value];
    }
    PrependEnd(bs, p.getp - start);
    ParseBucketsStep(p.Rest());
    return Ok(bs, p.getp - start);
  }

  // One round of the loop of ofp_bucket_list_encode.
  method OneBucketEncode(p: Pbuf, b: Bucket) returns (ret: Code, len: u16)
    requires CanEncode(p) && ActionsOk(b.acts)
    modifies p`putp, p`plen, p`data
    ensures Encoded(p, ret, BucketBytes(b)) && (ret == OK ==> len == |BucketBytes(b)|)
  {
    hide Put16;
    hide Tail;
    hide ActionsBytes;
    ghost var before, acts := p.Written(), ActionsBytes(b.acts);
    var at := p.putp;
    len := 0;
    // The length in the structure is whatever it was before; 0 stands for it.
    ret := p.Encode(Put16(0) + Tail(b));
    if ret != OK {
      return;
    }
    ret, len := ActionListEncode(p, b.acts);
    if ret != OK {
      return;
    }
    assert p.Written() == before + (Put16(0) + (Tail(b) + acts));
    ret, len := LengthSum(len, 16);
    LengthSet(p, at, len);
    PatchFront(before, 0, Tail(b) + acts, len);
    assert BucketBytes(b) == Put16(len) + (Tail(b) + acts);
  }

  lemma {:induction false} BucketsSplit(bs: seq<Bucket>, k: nat)
    requires k <= |bs|
    ensures BucketsBytes(bs) == BucketsBytes(bs[..k]) + BucketsBytes(bs[k..])
  {
    hide BucketBytes;
    if k == 0 {
      assert bs[..0] == [] && bs[0..] == bs;
    } else {
      BucketsSplit(bs[1..], k - 1);
      assert bs[..k][1..] == bs[1..][..k - 1] && bs[1..][k - 1..] == bs[k..];
    }
  }

  lemma BucketsNext(bs: seq<Bucket>, k: nat)
    requires k < |bs|
    ensures BucketsBytes(bs[..k + 1]) == BucketsBytes(bs[..k]) + BucketBytes(bs[k])
    ensures |BucketsBytes(bs[..k + 1])| <= |BucketsBytes(bs)|
  {
    hide BucketBytes;
    BucketsSplit(bs[..k + 1], k);
    BucketsSplit(bs, k + 1);
    assert bs[..k + 1][..k] == bs[..k] && bs[..k + 1][k..] == [bs[k]];
    assert BucketsBytes([bs[k]]) == BucketBytes(bs[k]) + BucketsBytes([bs[k]][1..]);
  }

  // ofp_bucket_list_encode
  method BucketListEncode(p: Pbuf, bs: seq<Bucket>) returns (ret: Code, total: u16)
    requires CanEncode(p) && BucketsOk(bs)
    modifies p`putp, p`plen, p`data
    ensures Encoded(p, ret, BucketsBytes(bs)) && (ret == OK ==> total == |BucketsBytes(bs)|)
  {
    hide BucketBytes;
    ret, total := OK, 0;
    for k := 0 to |bs|
      invariant ret == OK && CanEncode(p)
      invariant total == |BucketsBytes(bs[..k])| && p.plen + total == old(p.plen)
      invariant p.Written() == old(p.Written()) + BucketsBytes(bs[..k])
    {
      BucketsNext(bs, k);
      var len;
      ret, len := OneBucketEncode(p, bs[k]);
      if ret != OK {
        return;
      }
      assert p.Written() == old(p.Written()) + BucketsBytes(bs[..k + 1]);
      ret, total := LengthSum(total, len);
    }
    assert bs[..|bs|] == bs;
  }

  // The entry of group_desc_reply_create. Its last addition is not checked for overflow and
  // needs no check: the bytes it counts are in a buffer of at most 65535.
  method GroupDescEncode(p: Pbuf, kind: u8, groupId: u32, bs: seq<Bucket>) returns (ret: Code)
    requires CanEncode(p) && BucketsOk(bs)
    modifies p`putp, p`plen, p`data
    ensures Encoded(p, ret, Put16(Field(8 + |BucketsBytes(bs)|)) + ([kind, 0] + Put32(groupId)) + BucketsBytes(bs))
  {
    hide Put16;
    hide BucketsBytes;
    ghost var before := p.Written();
    var at := p.putp;
    ret := p.Encode(Put16(0) + ([kind, 0] + Put32(groupId)));
    if ret != OK {
      return;
    }
    var total;
    ret, total := BucketListEncode(p, bs);
    if ret != OK {
      return;
    }
    var fields := [kind, 0] + Put32(groupId);
    hide Put32;
    assert p.Written() == before + (Put16(0) + (fields + BucketsBytes(bs)));
    LengthSet(p, at, (total + 8) % 0x1_0000);
    PatchFront(before, 0, fields + BucketsBytes(bs), Field(8 + |BucketsBytes(bs)|));
    assert Put16(Field(8 + |BucketsBytes(bs)|)) + (fields + BucketsBytes(bs))
        == Put16(Field(8 + |BucketsBytes(bs)|)) + fields + BucketsBytes(bs);
  }
}
