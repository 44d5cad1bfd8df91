// The action encoder as it runs: headers go into the buffer first and their length fields
// are overwritten when the length is known.

module ActionEncoder {
  import opened Bytes
  import opened Results
  import opened Buffer
  import opened Tlv
  import opened ActionFormat

  // A buffer an encoder may write to. Encoding buffers are allocated with
  // OFP_PACKET_MAX_SIZE bytes, so plen never exceeds what a 16-bit length can say.
  ghost predicate CanEncode(p: Pbuf)
    reads p
  {
    p.Writable() && p.plen <= PACKET_MAX
  }

  // b was added to the buffer and paid for out of plen.
  twostate predicate Wrote(p: Pbuf, b: seq<u8>)
    requires old(p.Writable())
    reads p
  {
    && CanEncode(p) && |b| <= old(p.plen)
    && p.plen == old(p.plen) - |b| && p.Written() == old(p.Written()) + b
  }

  // What every encoder below promises: it succeeds exactly when its bytes fit, and then
  // adds them. After a failure the caller drops the buffer.
  twostate predicate Encoded(p: Pbuf, ret: Code, b: seq<u8>)
    requires old(p.Writable())
    reads p
  {
    && CanEncode(p)
    && (ret == OK <==> |b| <= old(p.plen))
    && (ret == OK ==> Wrote(p, b))
  }

  // Overwriting the length field of the element that was written last.
  lemma PatchElement(before: seq<u8>, kind: u16, body: seq<u8>, length: u16)
    requires 4 + |body| <= 65535
    ensures Overwrite(before + (Put16(kind) + Put16(length) + body), |before| + 2, Put16(4 + |body|))
      == before + Element(kind, body)
  {
    hide Put16;
    var w := before + (Put16(kind) + Put16(length) + body);
    assert w == before + Put16(kind) + (Put16(length) + body);
    assert w[..|before| + 2] == before + Put16(kind);
    assert w[|before| + 4..] == body;
    assert before + Element(kind, body) == before + Put16(kind) + Put16(4 + |body|) + body;
  }

  // The pieces of a set-field action, with a length that does not count the padding yet.
  method SetFieldPieces(p: Pbuf, head: seq<u8>, value: seq<u8>, length: u16) returns (ret: Code, len: u16)
    requires CanEncode(p) && length == |head| + |value| <= 1000
    modifies p`putp, p`plen, p`data
    ensures Encoded(p, ret, head + value + Zeros(Pad(length)))
    ensures ret == OK ==> len == length + Pad(length)
  {
    len := length;
    assert Pad(length) < 8;
    hide Pad;
    ret := p.Encode(head);
    if ret == OK {
      ret := p.Encode(value);
      if ret == OK {
        ret, len := PaddingEncode(p, len);
        if ret == OK {
          assert p.Written() == old(p.Written()) + (head + value + Zeros(Pad(length)));
        }
      }
    }
  }

  // The eight bytes a set-field action starts with, for a given length.
  function SetFieldHead(a: Action, length: u16): (s: seq<u8>)
    requires a.SetField? && |a.value| <= 255
    ensures |s| == 8
  {
    Put16(OFPAT_SET_FIELD) + Put16(length) + (Put16(a.oxmClass) + [a.field, |a.value|])
  }

  lemma SetFieldPatched(before: seq<u8>, a: Action, length: u16)
    requires a.SetField? && ActionOk(a)
    ensures |ActionBytes(a)| == 8 + |a.value| + Pad(|a.value|)
    ensures
      var w := before + (SetFieldHead(a, length) + a.value + Zeros(Pad(|a.value|)));
      Overwrite(w, |before| + 2, Put16(|ActionBytes(a)|)) == before + ActionBytes(a)
  {
    hide Put16;
    hide Pad;
    var fixed := Put16(a.oxmClass) + [a.field, |a.value|];
    var body := fixed + a.value + Zeros(Pad(|a.value|));
    assert SetFieldHead(a, length) + a.value + Zeros(Pad(|a.value|))
        == Put16(OFPAT_SET_FIELD) + Put16(length) + body;
    assert ActionBytes(a) == Element(OFPAT_SET_FIELD, body);
    PatchElement(before, OFPAT_SET_FIELD, body, length);
  }

  // ofp_action_list_set_field_encode
  method SetFieldEncode(p: Pbuf, a: Action) returns (ret: Code, len: u16)
    requires CanEncode(p) && a.SetField? && ActionOk(a)
    modifies p`putp, p`plen, p`data
    ensures Encoded(p, ret, ActionBytes(a)) && (ret == OK ==> len == |ActionBytes(a)|)
  {
    assert Pad(8 + |a.value|) == Pad(|a.value|);
    assert |a.value| <= 255 && |SetFieldHead(a, 8 + |a.value|)| == 8;
    SetFieldPatched(p.Written(), a, 8 + |a.value|);
    hide ActionBytes;
    hide ActionOk;
    hide SetFieldHead;
    hide Overwrite;
    hide Pad;
    hide Put16;
    var at := p.putp;
    ret, len := SetFieldPieces(p, SetFieldHead(a, 8 + |a.value|), a.value, 8 + |a.value|);
    if ret == OK {
      LengthSet(p, at + 2, len);
    }
  }

  // The bytes of a list are those of its parts.

  lemma {:induction false} PropsSplit(props: seq<Prop>, k: nat)
    requires k <= |props|
    ensures PropsBytes(props) == PropsBytes(props[..k]) + PropsBytes(props[k..])
  {
    hide PropBytes;
    if k == 0 {
      assert props[..0] == [] && props[0..] == props;
    } else {
      PropsSplit(props[1..], k - 1);
      assert props[..k][1..] == props[1..][..k - 1] && props[1..][k - 1..] == props[k..];
    }
  }

  lemma {:induction false} ActionsSplit(acts: seq<Action>, k: nat)
    requires k <= |acts|
    ensures ActionsBytes(acts) == ActionsBytes(acts[..k]) + ActionsBytes(acts[k..])
  {
    hide ActionBytes;
    if k == 0 {
      assert acts[..0] == [] && acts[0..] == acts;
    } else {
      ActionsSplit(acts[1..], k - 1);
      assert acts[..k][1..] == acts[1..][..k - 1] && acts[1..][k - 1..] == acts[k..];
    }
  }

  lemma PropsNext(props: seq<Prop>, k: nat)
    requires k < |props|
    ensures PropsBytes(props[..k + 1]) == PropsBytes(props[..k]) + PropBytes(props[k])
    ensures |PropsBytes(props[..k + 1])| <= |PropsBytes(props)|
  {
    hide PropBytes;
    PropsSplit(props[..k + 1], k);
    PropsSplit(props, k + 1);
    assert props[..k + 1][..k] == props[..k] && props[..k + 1][k..] == [props[k]];
    assert PropsBytes([props[k]]) == PropBytes(props[k]) + PropsBytes([props[k]][1..]);
  }

  lemma ActionsNext(acts: seq<Action>, k: nat)
    requires k < |acts|
    ensures ActionsBytes(acts[..k + 1]) == ActionsBytes(acts[..k]) + ActionBytes(acts[k])
    ensures |ActionsBytes(acts[..k + 1])| <= |ActionsBytes(acts)|
  {
    hide ActionBytes;
    ActionsSplit(acts[..k + 1], k);
    ActionsSplit(acts, k + 1);
    assert acts[..k + 1][..k] == acts[..k] && acts[..k + 1][k..] == [acts[k]];
    assert ActionsBytes([acts[k]]) == ActionBytes(acts[k]) + ActionsBytes([acts[k]][1..]);
  }

  // ofp_action_list_action_ed_prop_encode
  method EdPropEncode(p: Pbuf, prop: Prop, total: u16) returns (ret: Code, sum: u16)
    requires CanEncode(p) && PropOk(prop) && total + p.plen <= 65535
    modifies p`putp, p`plen, p`data
    ensures Encoded(p, ret, PropBytes(prop)) && (ret == OK ==> sum == total + PROP_SIZE)
  {
    hide Put16;
    ghost var before := p.Written();
    sum := total;
    var fields := Put16(prop.flags) + Put16(prop.pad) + prop.name;
    // The length in the structure is whatever it was before; 0 stands for it.
    ret := p.Encode(Put16(OFPPPT_PROP_PORT_NAME) + Put16(0) + fields);
    if ret == OK {
      var at := p.putp - PROP_SIZE;
      ret, sum := LengthSum(total, PROP_SIZE);
      LengthSet(p, at + 2, PROP_SIZE);
      PatchElement(before, OFPPPT_PROP_PORT_NAME, fields, 0);
      assert Element(OFPPPT_PROP_PORT_NAME, fields) == PropBytes(prop);
    }
  }

  // The property loop of the encap and decap encoders.
  method EdPropsEncode(p: Pbuf, props: seq<Prop>) returns (ret: Code, total: u16)
    requires CanEncode(p) && forall q :: q in props ==> PropOk(q)
    modifies p`putp, p`plen, p`data
    ensures Encoded(p, ret, PropsBytes(props)) && (ret == OK ==> total == |PropsBytes(props)|)
  {
    hide PropBytes;
    ret, total := OK, 0;
    for k := 0 to |props|
      invariant ret == OK && CanEncode(p)
      invariant total == |PropsBytes(props[..k])| && p.plen + total == old(p.plen)
      invariant p.Written() == old(p.Written()) + PropsBytes(props[..k])
    {
      PropsNext(props, k);
      ret, total := EdPropEncode(p, props[k], total);
      if ret != OK {
        return;
      }
      assert p.Written() == old(p.Written()) + PropsBytes(props[..k + 1]);
    }
    assert props[..|props|] == props;
  }

  // ofp_action_list_action_encap_encode and ofp_action_list_action_decap_encode: the header
  // with length 0, the properties, then the length.
  method PropsActionEncode(p: Pbuf, kind: u16, fixed: seq<u8>, props: seq<Prop>) returns (ret: Code, len: u16)
    requires CanEncode(p) && |fixed| <= 12 && forall q :: q in props ==> PropOk(q)
    modifies p`putp, p`plen, p`data
    ensures Encoded(p, ret, Element(kind, fixed + PropsBytes(props)))
    ensures ret == OK ==> len == 4 + |fixed| + |PropsBytes(props)|
  {
    hide Put16;
    hide PropsBytes;
    ghost var before := p.Written();
    len := 0;
    ret := p.Encode(Put16(kind) + Put16(0) + fixed);
    if ret != OK {
      return;
    }
    var at := p.putp - (4 + |fixed|);
    var propsLen;
    ret, propsLen := EdPropsEncode(p, props);
    if ret != OK {
      return;
    }
    // An unchecked 16-bit addition, which cannot wrap: the bytes are in the buffer.
    ret, len := LengthSum(len, (4 + |fixed| + propsLen) % 0x1_0000);
    assert p.Written() == before + (Put16(kind) + Put16(0) + (fixed + PropsBytes(props)));
    LengthSet(p, at + 2, len);
    PatchElement(before, kind, fixed + PropsBytes(props), 0);
    hide Element;
  }

  // One round of the loop of ofp_action_list_encode.
  method OneActionEncode(p: Pbuf, a: Action) returns (ret: Code, len: u16)
    requires CanEncode(p) && ActionOk(a)
    modifies p`putp, p`plen, p`data
    ensures Encoded(p, ret, ActionBytes(a)) && (ret == OK ==> len == |ActionBytes(a)|)
  {
    hide Element;
    hide Body;
    match a
    case SetField(_, _, _) =>
      ret, len := SetFieldEncode(p, a);
    case Encap(packetType, props) =>
      ret, len := PropsActionEncode(p, OFPAT_ENCAP, Put32(packetType), props);
    case Decap(cur, next, pad, props) =>
      ret, len := PropsActionEncode(p, OFPAT_DECAP, Put32(cur) + Put32(next) + Put32(pad), props);
    case _ =>
      BodyRoundTrip(a);
      len := FixedSize(Kind(a));
      ret := p.Encode(Element(Kind(a), Body(a)));
  }

  // ofp_action_list_encode: success, the total length and the bytes written all agree.
  method ActionListEncode(p: Pbuf, acts: seq<Action>) returns (ret: Code, total: u16)
    requires CanEncode(p) && ActionsOk(acts)
    modifies p`putp, p`plen, p`data
    ensures Encoded(p, ret, ActionsBytes(acts)) && (ret == OK ==> total == |ActionsBytes(acts)|)
  {
    hide ActionBytes;
    hide ActionOk;
    ret, total := OK, 0;
    for k := 0 to |acts|
      invariant ret == OK && CanEncode(p)
      invariant total == |ActionsBytes(acts[..k])| && p.plen + total == old(p.plen)
      invariant p.Written() == old(p.Written()) + ActionsBytes(acts[..k])
    {
      ActionsNext(acts, k);
      var len;
      ret, len := OneActionEncode(p, acts[k]);
      if ret != OK {
        return;
      }
      assert p.Written() == old(p.Written()) + ActionsBytes(acts[..k + 1]);
      ret, total := LengthSum(total, len);
    }
    assert acts[..|acts|] == acts;
  }
}
