// OpenFlow actions: wire format, parser and encoder.

module Oxm {
  import opened Bytes

  const OFPXMC_OPENFLOW_BASIC: u16 := 0x8000

  // OXM_FIELD_TYPE: the field number without the mask bit.
  function FieldType(field: u8): u8
  {
    field / 2
  }

  // ofp_oxm_field_check: the field numbers of the enumeration, which skips 40.
  predicate FieldKnown(field: u8)
  {
    FieldType(field) <= 67 && FieldType(field) != 40
  }
}

// The wire format and the parsers as functions on byte sequences.
module ActionFormat {
  import opened Bytes
  import opened Tlv
  import opened Oxm

  // What a failing parser reports: an OpenFlow error, the result of a decoder that ran out of
  // bytes passed through as it is, or a result that no branch has set.
  datatype Fault = Ofp(etype: u16, code: u16) | Range | Unset

  datatype Parsed<T> = Ok(value: T, used: nat) | Fail(fault: Fault)

  const OFPET_BAD_REQUEST: u16 := 1
  const OFPET_BAD_ACTION: u16 := 2
  const BAD_REQUEST_LEN := Ofp(OFPET_BAD_REQUEST, 6)
  const BAD_LEN := Ofp(OFPET_BAD_ACTION, 1)
  const BAD_TYPE := Ofp(OFPET_BAD_ACTION, 0)
  const BAD_SET_TYPE := Ofp(OFPET_BAD_ACTION, 13)
  const BAD_SET_LEN := Ofp(OFPET_BAD_ACTION, 14)
  const BAD_EXPERIMENTER := Ofp(OFPET_BAD_REQUEST, 3)

  const OFPAT_OUTPUT: u16 := 0
  const OFPAT_SET_MPLS_TTL: u16 := 15
  const OFPAT_POP_MPLS: u16 := 20
  const OFPAT_SET_QUEUE: u16 := 21
  const OFPAT_GROUP: u16 := 22
  const OFPAT_SET_NW_TTL: u16 := 23
  const OFPAT_SET_FIELD: u16 := 25
  const OFPAT_ENCAP: u16 := 28
  const OFPAT_DECAP: u16 := 29
  const OFPAT_EXPERIMENTER: u16 := 0xffff

  // COPY_TTL_OUT, COPY_TTL_IN, DEC_MPLS_TTL, POP_VLAN, DEC_NW_TTL, POP_PBB
  predicate IsPlain(kind: u16)
  {
    kind in {11, 12, 16, 18, 24, 27}
  }

  // PUSH_VLAN, PUSH_MPLS, PUSH_PBB
  predicate IsPush(kind: u16)
  {
    kind in {17, 19, 26}
  }

  // An encap or decap property. Only port names are supported.
  datatype Prop = PortName(flags: u16, pad: u16, name: seq<u8>)

  // Padding bytes are part of the value: the generated codecs carry them both ways.
  datatype Action =
    | Output(port: u32, maxLen: u16, pad: seq<u8>)
    | Plain(kind: u16, pad4: u32)
    | SetMplsTtl(ttl: u8, pad3: seq<u8>)
    | SetNwTtl(ttl: u8, pad3: seq<u8>)
    | Push(kind: u16, ethertype: u16, pad2: u16)
    | PopMpls(ethertype: u16, pad2: u16)
    | SetQueue(id: u32)
    | Group(id: u32)
    | SetField(oxmClass: u16, field: u8, value: seq<u8>)
    | Encap(packetType: u32, props: seq<Prop>)
    | Decap(curType: u32, newType: u32, pad4: u32, props: seq<Prop>)

  predicate PropOk(p: Prop)
  {
    |p.name| == 16
  }

  // Values the C structures can hold and the parsers accept.
  predicate ActionOk(a: Action)
  {
    match a
    case Output(_, _, pad) => |pad| == 6
    case Plain(kind, _) => IsPlain(kind)
    case SetMplsTtl(_, pad) => |pad| == 3
    case SetNwTtl(_, pad) => |pad| == 3
    case Push(kind, _, _) => IsPush(kind)
    case SetField(oxmClass, field, value) =>
      oxmClass == OFPXMC_OPENFLOW_BASIC && FieldKnown(field) && |value| <= 255
    case Encap(_, props) => forall p :: p in props ==> PropOk(p)
    case Decap(_, _, _, props) => forall p :: p in props ==> PropOk(p)
    case _ => true
  }

  function Kind(a: Action): u16
  {
    match a
    case Output(_, _, _) => OFPAT_OUTPUT
    case Plain(kind, _) => kind
    case SetMplsTtl(_, _) => OFPAT_SET_MPLS_TTL
    case SetNwTtl(_, _) => OFPAT_SET_NW_TTL
    case Push(kind, _, _) => kind
    case PopMpls(_, _) => OFPAT_POP_MPLS
    case SetQueue(_) => OFPAT_SET_QUEUE
    case Group(_) => OFPAT_GROUP
    case SetField(_, _, _) => OFPAT_SET_FIELD
    case Encap(_, _) => OFPAT_ENCAP
    case Decap(_, _, _, _) => OFPAT_DECAP
  }

  // The actions of fixed size.
  predicate IsFixed(kind: u16)
  {
    || kind in {OFPAT_OUTPUT, OFPAT_SET_MPLS_TTL, OFPAT_SET_NW_TTL, OFPAT_POP_MPLS, OFPAT_SET_QUEUE, OFPAT_GROUP}
    || IsPlain(kind) || IsPush(kind)
  }

  function FixedSize(kind: u16): nat
  {
    if kind == OFPAT_OUTPUT then 16 else 8
  }

  predicate HasBody(a: Action)
  {
    !a.SetField? && !a.Encap? && !a.Decap?
  }

  // The bytes behind type and length of an action of fixed size.
  function Body(a: Action): seq<u8>
    requires HasBody(a)
  {
    match a
    case Output(port, maxLen, pad) => Put32(port) + Put16(maxLen) + pad
    case Plain(_, pad) => Put32(pad)
    case SetMplsTtl(ttl, pad) => [ttl] + pad
    case SetNwTtl(ttl, pad) => [ttl] + pad
    case Push(_, ethertype, pad) => Put16(ethertype) + Put16(pad)
    case PopMpls(ethertype, pad) => Put16(ethertype) + Put16(pad)
    case SetQueue(id) => Put32(id)
    case Group(id) => Put32(id)
  }

  // The action of fixed size with those bytes.
  function Unbody(kind: u16, b: seq<u8>): Action
    requires IsFixed(kind) && |b| == FixedSize(kind) - 4
  {
    if kind == OFPAT_OUTPUT then Output(Long(b, 0), Word(b, 4), b[6..])
    else if kind == OFPAT_SET_MPLS_TTL then SetMplsTtl(b[0], b[1..])
    else if kind == OFPAT_SET_NW_TTL then SetNwTtl(b[0], b[1..])
    else if kind == OFPAT_POP_MPLS then PopMpls(Word(b, 0), Word(b, 2))
    else if kind == OFPAT_SET_QUEUE then SetQueue(Long(b, 0))
    else if kind == OFPAT_GROUP then Group(Long(b, 0))
    else if IsPush(kind) then Push(kind, Word(b, 0), Word(b, 2))
    else Plain(kind, Long(b, 0))
  }

  lemma BodyRoundTrip(a: Action)
    requires ActionOk(a) && HasBody(a)
    ensures IsFixed(Kind(a)) && |Body(a)| == FixedSize(Kind(a)) - 4
    ensures Unbody(Kind(a), Body(a)) == a
  {
    match a
    case Output(port, maxLen, pad) =>
      assert Body(a)[4..6] == Put16(maxLen) && Body(a)[..4] == Put32(port);
      assert Long(Body(a), 0) == Long(Body(a)[..4], 0) && Word(Body(a), 4) == Word(Body(a)[4..6], 0);
    case Push(_, ethertype, pad) =>
      assert Body(a)[2..4] == Put16(pad);
      assert Word(Body(a), 2) == Word(Body(a)[2..4], 0);
    case PopMpls(ethertype, pad) =>
      assert Body(a)[2..4] == Put16(pad);
      assert Word(Body(a), 2) == Word(Body(a)[2..4], 0);
    case _ =>
  }

  const PROP_SIZE: nat := 24
  const OFPPPT_PROP_PORT_NAME: u16 := 1

  function PropBytes(p: Prop): (s: seq<u8>)
    ensures PropOk(p) ==> |s| == PROP_SIZE
  {
    Put16(OFPPPT_PROP_PORT_NAME) + Put16(PROP_SIZE) + Put16(p.flags) + Put16(p.pad) + p.name
  }

  function PropsBytes(props: seq<Prop>): seq<u8>
  {
    if props == [] then [] else PropBytes(props[0]) + PropsBytes(props[1..])
  }

  // Type, length, and the rest of an element.
  function Element(kind: u16, body: seq<u8>): (s: seq<u8>)
    ensures |s| == 4 + |body|
  {
    Put16(kind) + Put16(Field(4 + |body|)) + body
  }

  // The bytes of an action, with its own length in place.
  function ActionBytes(a: Action): (s: seq<u8>)
    ensures |s| >= 4
  {
    match a
    case SetField(oxmClass, field, value) =>
      Element(OFPAT_SET_FIELD, Put16(oxmClass) + [field, |value| % 0x100] + value + Zeros(Pad(|value|)))
    case Encap(packetType, props) =>
      Element(OFPAT_ENCAP, Put32(packetType) + PropsBytes(props))
    case Decap(curType, newType, pad, props) =>
      Element(OFPAT_DECAP, Put32(curType) + Put32(newType) + Put32(pad) + PropsBytes(props))
    case _ =>
      Element(Kind(a), Body(a))
  }

  function ActionsBytes(acts: seq<Action>): seq<u8>
  {
    if acts == [] then [] else ActionBytes(acts[0]) + ActionsBytes(acts[1..])
  }

  // ofp_action_ed_prop_parse
  function ParseProp(s: seq<u8>): (r: Parsed<Prop>)
    ensures r.Ok? ==> r.used == PROP_SIZE <= |s| && PropOk(r.value)
  {
    if |s| < 4 then Fail(BAD_LEN)
    else if |s| < Word(s, 2) then Fail(BAD_LEN)
    else if Word(s, 0) != OFPPPT_PROP_PORT_NAME then Fail(BAD_TYPE)
    else if |s| < PROP_SIZE then Fail(Range)
    else Ok(PortName(Word(s, 4), Word(s, 6), s[8..24]), PROP_SIZE)
  }

  // The property loop: parse until need bytes are passed.
  function ParseProps(s: seq<u8>, need: int): (r: Parsed<seq<Prop>>)
    ensures r.Ok? ==> need <= r.used <= |s|
    decreases |s|
  {
    if need <= 0 then Ok([], 0)
    else match ParseProp(s)
      case Fail(f) => Fail(f)
      case Ok(p, n) =>
        match ParseProps(s[n..], need - n)
        case Fail(f) => Fail(f)
        case Ok(ps, m) => Ok([p] + ps, n + m)
  }

  lemma {:induction false} ParsedProps(s: seq<u8>, need: int)
    requires ParseProps(s, need).Ok?
    ensures forall p :: p in ParseProps(s, need).value ==> PropOk(p)
    ensures ParseProps(s, need).used == PROP_SIZE * |ParseProps(s, need).value|
    decreases |s|
  {
    hide ParseProp;
    hide PropOk;
    if need > 0 {
      ParsedProps(s[PROP_SIZE..], need - PROP_SIZE);
    }
  }

  // ofp_action_set_field_parse on the bytes of the action and what follows it.
  function ParseSetField(s: seq<u8>): (r: Parsed<Action>)
    requires |s| >= 4
    ensures r.Ok? ==> 8 <= r.used <= |s| && ActionOk(r.value)
  {
    var len: int := Word(s, 2);
    if |s| < 8 then Fail(BAD_LEN)
    else
      var oxmLength: nat := s[7];
      if oxmLength + Pad(oxmLength) != len - 8 then Fail(BAD_SET_LEN)
      else if |s| - 8 < oxmLength then Fail(BAD_SET_LEN)
      else if !(FieldKnown(s[6]) && Word(s, 4) == OFPXMC_OPENFLOW_BASIC) then Fail(BAD_SET_TYPE)
      else if |s| < len then Fail(BAD_SET_LEN)
      else Ok(SetField(Word(s, 4), s[6], s[8..8 + oxmLength]), len)
  }

  // ofp_action_encap_parse and ofp_action_decap_parse: the properties must end where the
  // length says.
  function ParseEncap(s: seq<u8>): (r: Parsed<Action>)
    requires |s| >= 4
    ensures r.Ok? ==> 8 <= r.used <= |s| && ActionOk(r.value)
  {
    if |s| < 8 then Fail(BAD_LEN)
    else match ParseProps(s[8..], Word(s, 2) - 8)
      case Fail(f) => Fail(f)
      case Ok(props, n) =>
        ParsedProps(s[8..], Word(s, 2) - 8);
        if 8 + n != Word(s, 2) then Fail(BAD_LEN) else Ok(Encap(Long(s, 4), props), 8 + n)
  }

  function ParseDecap(s: seq<u8>): (r: Parsed<Action>)
    requires |s| >= 4
    ensures r.Ok? ==> 8 <= r.used <= |s| && ActionOk(r.value)
  {
    if |s| < 16 then Fail(BAD_LEN)
    else match ParseProps(s[16..], Word(s, 2) - 16)
      case Fail(f) => Fail(f)
      case Ok(props, n) =>
        ParsedProps(s[16..], Word(s, 2) - 16);
        if 16 + n != Word(s, 2) then Fail(BAD_LEN)
        else Ok(Decap(Long(s, 4), Long(s, 8), Long(s, 12), props), 16 + n)
  }

  // One round of the loop of ofp_action_parse, before the length is compared.
  function ParseBody(s: seq<u8>): (r: Parsed<Action>)
    requires |s| >= 4
    ensures r.Ok? ==> 8 <= r.used <= |s| && ActionOk(r.value)
  {
    var kind := Word(s, 0);
    if IsFixed(kind) then
      if |s| < FixedSize(kind) then Fail(BAD_LEN)
      else Ok(Unbody(kind, s[4..FixedSize(kind)]), FixedSize(kind))
    else if kind == OFPAT_SET_FIELD then ParseSetField(s)
    else if kind == OFPAT_ENCAP then ParseEncap(s)
    else if kind == OFPAT_DECAP then ParseDecap(s)
    else if kind == OFPAT_EXPERIMENTER then Fail(BAD_EXPERIMENTER)
    else Fail(BAD_TYPE)
  }

  function ParseAction(s: seq<u8>): (r: Parsed<Action>)
    ensures r.Ok? ==> 8 <= r.used <= |s| && r.used == Word(s, 2) && ActionOk(r.value)
  {
    if |s| < 4 then Fail(BAD_LEN)
    else if |s| < Word(s, 2) then Fail(BAD_LEN)
    else match ParseBody(s)
      case Fail(f) => Fail(f)
      case Ok(a, n) => if n != Word(s, 2) then Fail(BAD_LEN) else Ok(a, n)
  }

  // ofp_action_parse: actions until at least need bytes are passed.
  function ParseActions(s: seq<u8>, need: int): (r: Parsed<seq<Action>>)
    ensures r.Ok? ==> need <= r.used <= |s| && forall a :: a in r.value ==> ActionOk(a)
    decreases |s|
  {
    if need <= 0 then Ok([], 0)
    else match ParseAction(s)
      case Fail(f) => Fail(f)
      case Ok(a, n) =>
        match ParseActions(s[n..], need - n)
        case Fail(f) => Fail(f)
        case Ok(acts, m) => Ok([a] + acts, n + m)
  }

  // The first four bytes of an element, and the rest of it.
  lemma ElementHead(kind: u16, body: seq<u8>, rest: seq<u8>)
    requires 4 + |body| <= 65535
    ensures
      var s := Element(kind, body) + rest;
      Word(s, 0) == kind && Word(s, 2) == 4 + |body| && s[4..] == body + rest
  {
    hide Word;
    hide Put16;
    var s := Element(kind, body) + rest;
    WordAt(s, 0, kind);
    WordAt(s, 2, 4 + |body|);
  }

  lemma {:induction false} PropsSize(props: seq<Prop>)
    requires forall p :: p in props ==> PropOk(p)
    ensures |PropsBytes(props)| == PROP_SIZE * |props|
  {
    if props != [] {
      PropsSize(props[1..]);
    }
  }

  lemma PropRoundTrip(p: Prop, rest: seq<u8>)
    requires PropOk(p)
    ensures ParseProp(PropBytes(p) + rest) == Ok(p, PROP_SIZE)
  {
    hide Word;
    hide Put16;
    var s := PropBytes(p) + rest;
    WordAt(s, 0, OFPPPT_PROP_PORT_NAME);
    WordAt(s, 2, PROP_SIZE);
    WordAt(s, 4, p.flags);
    WordAt(s, 6, p.pad);
    assert s[8..24] == p.name;
  }

  lemma ParsePropsCons(head: seq<u8>, tail: seq<u8>, need: int)
    requires 0 < need && ParseProp(head + tail).Ok? && |head| == PROP_SIZE
    ensures ParseProps(head + tail, need) ==
      match ParseProps(tail, need - PROP_SIZE)
      case Fail(f) => Fail(f)
      case Ok(ps, m) => Ok([ParseProp(head + tail).value] + ps, PROP_SIZE + m)
  {
    hide ParseProp;
    assert (head + tail)[PROP_SIZE..] == tail;
  }

  lemma PropsUnfold(props: seq<Prop>, rest: seq<u8>)
    requires props != []
    ensures PropsBytes(props) + rest == PropBytes(props[0]) + (PropsBytes(props[1..]) + rest)
    ensures |PropsBytes(props)| == |PropBytes(props[0])| + |PropsBytes(props[1..])|
  {
    hide PropBytes;
  }

  lemma {:induction false} PropsRoundTrip(props: seq<Prop>, rest: seq<u8>)
    requires forall p :: p in props ==> PropOk(p)
    ensures ParseProps(PropsBytes(props) + rest, |PropsBytes(props)|) == Ok(props, |PropsBytes(props)|)
  {
    if props != [] {
      hide *;
      var head, tail := PropBytes(props[0]), PropsBytes(props[1..]) + rest;
      PropsRoundTrip(props[1..], rest);
      PropRoundTrip(props[0], tail);
      PropsUnfold(props, rest);
      ParsePropsCons(head, tail, |PropsBytes(props)|);
      assert props == [props[0]] + props[1..];
    }
  }

  lemma SetFieldRoundTrip(a: Action, rest: seq<u8>)
    requires a.SetField? && ActionOk(a)
    ensures ParseAction(ActionBytes(a) + rest) == Ok(a, |ActionBytes(a)|)
  {
    hide Word;
    hide Put16;
    hide Pad;
    var n := |a.value|;
    var len: u8 := n;
    var head, tail := Put16(a.oxmClass) + [a.field, len], a.value + Zeros(Pad(n)) + rest;
    var body := head + a.value + Zeros(Pad(n));
    ElementHead(OFPAT_SET_FIELD, body, rest);
    var s := Element(OFPAT_SET_FIELD, body) + rest;
    assert s == ActionBytes(a) + rest;
    hide Element;
    assert s[4..] == head + tail;
    assert s[4..6] == s[4..][..2];
    WordAt(s, 4, a.oxmClass);
    assert s[6] == s[4..][2] && s[7] == s[4..][3];
    assert s[8..8 + n] == s[4..][4..4 + n] == a.value;
  }

  // An element whose body is a fixed part and a list: where each is found.
  lemma ElementParts(kind: u16, fixed: seq<u8>, list: seq<u8>, rest: seq<u8>)
    requires 4 + |fixed| + |list| <= 65535
    ensures
      var s := Element(kind, fixed + list) + rest;
      && Word(s, 0) == kind && Word(s, 2) == 4 + |fixed| + |list|
      && s[4..4 + |fixed|] == fixed && s[4 + |fixed|..] == list + rest
  {
    ElementHead(kind, fixed + list, rest);
    hide Element;
    hide Word;
    var s := Element(kind, fixed + list) + rest;
    assert s[4..] == fixed + (list + rest);
    assert s[4..4 + |fixed|] == s[4..][..|fixed|];
    assert s[4 + |fixed|..] == s[4..][|fixed|..];
  }

  lemma EncapRoundTrip(a: Action, rest: seq<u8>)
    requires a.Encap? && ActionOk(a) && |ActionBytes(a)| <= 65535
    ensures ParseAction(ActionBytes(a) + rest) == Ok(a, |ActionBytes(a)|)
  {
    hide Word;
    hide Long;
    hide Put32;
    PropsSize(a.props);
    PropsRoundTrip(a.props, rest);
    hide ParseProps;
    hide PropsBytes;
    ElementParts(OFPAT_ENCAP, Put32(a.packetType), PropsBytes(a.props), rest);
    hide Element;
    LongAt(ActionBytes(a) + rest, 4, a.packetType);
  }

  lemma ThreeLongs(s: seq<u8>, x: u32, y: u32, z: u32)
    requires 16 <= |s| && s[4..16] == Put32(x) + Put32(y) + Put32(z)
    ensures Long(s, 4) == x && Long(s, 8) == y && Long(s, 12) == z
  {
    var b := s[4..16];
    assert forall k :: 0 <= k < 12 ==> s[4 + k] == b[k];
    assert Long(b, 0) == Long(Put32(x), 0) && Long(b, 4) == Long(Put32(y), 0) && Long(b, 8) == Long(Put32(z), 0);
    assert s[4] == b[0] && s[5] == b[1] && s[6] == b[2] && s[7] == b[3];
    assert s[8] == b[4] && s[9] == b[5] && s[10] == b[6] && s[11] == b[7];
    assert s[12] == b[8] && s[13] == b[9] && s[14] == b[10] && s[15] == b[11];
  }

  lemma DecapRoundTrip(a: Action, rest: seq<u8>)
    requires a.Decap? && ActionOk(a) && |ActionBytes(a)| <= 65535
    ensures ParseAction(ActionBytes(a) + rest) == Ok(a, |ActionBytes(a)|)
  {
    hide Word;
    hide Long;
    hide Put32;
    PropsSize(a.props);
    PropsRoundTrip(a.props, rest);
    hide ParseProps;
    hide PropsBytes;
    ElementParts(OFPAT_DECAP, Put32(a.curType) + Put32(a.newType) + Put32(a.pad4), PropsBytes(a.props), rest);
    hide Element;
    ThreeLongs(ActionBytes(a) + rest, a.curType, a.newType, a.pad4);
  }

  lemma FixedRoundTrip(a: Action, rest: seq<u8>)
    requires HasBody(a) && ActionOk(a)
    ensures ParseAction(ActionBytes(a) + rest) == Ok(a, |ActionBytes(a)|)
  {
    BodyRoundTrip(a);
    hide Unbody;
    hide Body;
    ElementHead(Kind(a), Body(a), rest);
    var s := ActionBytes(a) + rest;
    assert s == Element(Kind(a), Body(a)) + rest;
    hide Element;
    hide Word;
    assert s[4..FixedSize(Kind(a))] == s[4..][..|Body(a)|] == Body(a);
  }

  // Parsing an encoded action gives it back, whatever follows it.
  lemma ActionRoundTrip(a: Action, rest: seq<u8>)
    requires ActionOk(a) && |ActionBytes(a)| <= 65535
    ensures ParseAction(ActionBytes(a) + rest) == Ok(a, |ActionBytes(a)|)
  {
    match a
    case SetField(_, _, _) => SetFieldRoundTrip(a, rest);
    case Encap(_, _) => EncapRoundTrip(a, rest);
    case Decap(_, _, _, _) => DecapRoundTrip(a, rest);
    case _ => FixedRoundTrip(a, rest);
  }

  predicate ActionsOk(acts: seq<Action>)
  {
    forall a :: a in acts ==> ActionOk(a)
  }

  lemma ParseActionsCons(head: seq<u8>, tail: seq<u8>, need: int)
    requires 0 < need && ParseAction(head + tail).Ok? && ParseAction(head + tail).used == |head|
    ensures ParseActions(head + tail, need) ==
      match ParseActions(tail, need - |head|)
      case Fail(f) => Fail(f)
      case Ok(acts, m) => Ok([ParseAction(head + tail).value] + acts, |head| + m)
  {
    hide ParseAction;
    assert (head + tail)[|head|..] == tail;
  }

  // Parsing an encoded action list gives it back and stops at its end.
  lemma {:induction false} ActionsRoundTrip(acts: seq<Action>, rest: seq<u8>)
    requires ActionsOk(acts) && |ActionsBytes(acts)| <= 65535
    ensures ParseActions(ActionsBytes(acts) + rest, |ActionsBytes(acts)|) == Ok(acts, |ActionsBytes(acts)|)
  {
    hide ActionBytes;
    hide ActionOk;
    hide ParseAction;
    if acts != [] {
      var head, tail := ActionBytes(acts[0]), ActionsBytes(acts[1..]) + rest;
      ActionRoundTrip(acts[0], tail);
      ActionsRoundTrip(acts[1..], rest);
      ParseActionsCons(head, tail, |ActionsBytes(acts)|);
      assert ActionsBytes(acts) + rest == head + tail;
      assert acts == [acts[0]] + acts[1..];
    }
  }

  lemma {:induction false} PropsExtent(s: seq<u8>, need: int)
    requires ParseProps(s, need).Ok?
    ensures |PropsBytes(ParseProps(s, need).value)| == ParseProps(s, need).used
  {
    ParsedProps(s, need);
    PropsSize(ParseProps(s, need).value);
  }

  lemma UnbodyKind(kind: u16, b: seq<u8>)
    requires IsFixed(kind) && |b| == FixedSize(kind) - 4
    ensures HasBody(Unbody(kind, b)) && Kind(Unbody(kind, b)) == kind && ActionOk(Unbody(kind, b))
  {}

  // An accepted action took as many bytes as its encoding has.
  lemma ActionExtent(s: seq<u8>)
    requires ParseAction(s).Ok?
    ensures |ActionBytes(ParseAction(s).value)| == ParseAction(s).used
  {
    hide Unbody;
    hide PropsBytes;
    hide ParseProps;
    hide Body;
    var kind := Word(s, 0);
    hide Word;
    if IsFixed(kind) {
      UnbodyKind(kind, s[4..FixedSize(kind)]);
      BodyRoundTrip(ParseAction(s).value);
    } else if kind == OFPAT_ENCAP {
      PropsExtent(s[8..], Word(s, 2) - 8);
    } else if kind == OFPAT_DECAP {
      PropsExtent(s[16..], Word(s, 2) - 16);
    }
  }

  // A successful parse moves by exactly the sum of the action lengths, and by no less than
  // what was asked for.
  lemma {:induction false} ActionsExtent(s: seq<u8>, need: int)
    requires ParseActions(s, need).Ok?
    ensures |ActionsBytes(ParseActions(s, need).value)| == ParseActions(s, need).used >= need
    decreases |s|
  {
    hide ParseAction;
    hide ActionBytes;
    if need > 0 {
      ActionExtent(s);
      var n := ParseAction(s).used;
      ActionsExtent(s[n..], need - n);
      assert ParseActions(s, need).value[1..] == ParseActions(s[n..], need - n).value;
    }
  }
}

// The parsers as they run, on a buffer with cursors.
module ActionParser {
  import opened Bytes
  import opened Results
  import opened Buffer
  import opened Tlv
  import opened Oxm
  import opened ActionFormat

  // What a successful parse does to the buffer: it has moved past used bytes.
  twostate predicate Moved(p: Pbuf, used: nat)
    requires old(p.Readable())
    reads p
  {
    && p.Readable() && used <= old(p.plen)
    && p.getp == old(p.getp) + used && p.plen == old(p.plen) - used
    && p.Rest() == old(p.Rest())[used..]
  }

  // ofp_tlv_decode_sneak: type and length, without moving.
  method TlvSneak(p: Pbuf) returns (ret: Code, kind: u16, length: u16)
    requires p.Readable()
    ensures ret == if |p.Rest()| < 4 then OUT_OF_RANGE else OK
    ensures ret == OK ==> kind == Word(p.Rest(), 0) && length == Word(p.Rest(), 2)
  {
    if p.plen < 4 {
      return OUT_OF_RANGE, 0, 0;
    }
    var b := p.data[p.getp..p.getp + 4];
    assert forall i :: 0 <= i < 4 ==> b[i] == p.Rest()[i];
    return OK, Word(b, 0), Word(b, 2);
  }

  // Results collected so far, in front of what the rest of the input gives.
  ghost function Prepend<T>(done: seq<T>, n: nat, rest: Parsed<seq<T>>): Parsed<seq<T>>
  {
    match rest
    case Fail(f) => Fail(f)
    case Ok(xs, m) => Ok(done + xs, n + m)
  }

  // ofp_action_ed_prop_parse
  method EdPropParse(p: Pbuf) returns (r: Parsed<Prop>)
    requires p.Readable()
    modifies p`getp, p`plen
    ensures p.Readable() && r == ParseProp(old(p.Rest()))
    ensures r.Ok? ==> Moved(p, r.used)
  {
    var ret, kind, length := TlvSneak(p);
    if ret != OK || p.plen < length {
      return Fail(BAD_LEN);
    }
    if kind != OFPPPT_PROP_PORT_NAME {
      return Fail(BAD_TYPE);
    }
    var b;
    ret, b := p.Decode(PROP_SIZE);
    if ret != OK {
      return Fail(Range);
    }
    assert b[8..24] == old(p.Rest())[8..24];
    return Ok(PortName(Word(b, 4), Word(b, 6), b[8..24]), PROP_SIZE);
  }

  // The property loop of the encap and decap parsers, up to buffer position end.
  method EdPropsParse(p: Pbuf, end: int) returns (r: Parsed<seq<Prop>>)
    requires p.Readable()
    modifies p`getp, p`plen
    ensures p.Readable() && r == ParseProps(old(p.Rest()), end - old(p.getp))
    ensures r.Ok? ==> Moved(p, r.used)
  {
    hide ParseProp;
    hide ParseProps;
    hide Prepend;
    ghost var s, need := p.Rest(), end - p.getp;
    var start := p.getp;
    var props: seq<Prop> := [];
    PrependNothing(ParseProps(s, need));
    while p.getp < end
      invariant p.Readable() && start <= p.getp && p.getp + p.plen == start + |s|
      invariant ParseProps(s, need) == Prepend(props, p.getp - start, ParseProps(p.Rest(), end - p.getp))
      decreases p.plen
    {
      ghost var n := p.getp - start;
      ParsePropsStep(p.Rest(), end - p.getp);
      var one := EdPropParse(p);
      if one.Fail? {
        PrependFail(props, n, one.fault);
        return Fail(one.fault);
      }
      PrependOne(props, n, one.value, one.used, ParseProps(p.Rest(), end - p.getp));
      props := props + [one.value];
    }
    PrependEnd(props, p.getp - start);
    ParsePropsStep(p.Rest(), end - p.getp);
    return Ok(props, p.getp - start);
  }

  lemma {:induction false} ParsePropsStep(s: seq<u8>, need: int)
    ensures ParseProps(s, need) ==
      if need <= 0 then Ok([], 0)
      else match ParseProp(s)
        case Fail(f) => Fail(f)
        case Ok(x, n) => Prepend([x], n, ParseProps(s[n..], need - n))
  {}

  lemma PrependFail<T>(done: seq<T>, n: nat, f: Fault)
    ensures Prepend(done, n, Fail(f)) == Fail(f)
  {}

  lemma PrependEnd<T>(done: seq<T>, n: nat)
    ensures Prepend(done, n, Ok([], 0)) == Ok(done, n)
  {
    assert done + [] == done;
  }

  lemma PrependNothing<T>(r: Parsed<seq<T>>)
    ensures Prepend([], 0, r) == r
  {
    if r.Ok? {
      assert [] + r.value == r.value;
    }
  }

  lemma PrependMany<T>(done: seq<T>, n: nat, xs: seq<T>, k: nat, r: Parsed<seq<T>>)
    ensures Prepend(done, n, Prepend(xs, k, r)) == Prepend(done + xs, n + k, r)
  {
    if r.Ok? {
      assert done + (xs + r.value) == done + xs + r.value;
    }
  }

  lemma PrependOne<T>(done: seq<T>, n: nat, x: T, k: nat, r: Parsed<seq<T>>)
    ensures Prepend(done, n, Prepend([x], k, r)) == Prepend(done + [x], n + k, r)
  {
    if r.Ok? {
      assert done + ([x] + r.value) == done + [x] + r.value;
    }
  }

  // The parsers of the actions of fixed size: decode, and keep the fields.
  method FixedParse(p: Pbuf, kind: u16) returns (r: Parsed<Action>)
    requires p.Readable() && p.plen >= 4 && kind == Word(p.Rest(), 0) && IsFixed(kind)
    modifies p`getp, p`plen
    ensures p.Readable() && r == ParseBody(old(p.Rest()))
    ensures r.Ok? ==> Moved(p, r.used)
  {
    hide Unbody;
    var ret, b := p.Decode(FixedSize(kind));
    if ret != OK {
      return Fail(BAD_LEN);
    }
    assert b[4..] == old(p.Rest())[4..FixedSize(kind)];
    return Ok(Unbody(kind, b[4..]), FixedSize(kind));
  }

  // ofp_action_set_field_parse
  method SetFieldParse(p: Pbuf) returns (r: Parsed<Action>)
    requires p.Readable() && p.plen >= 4
    modifies p`getp, p`plen
    ensures p.Readable() && r == ParseSetField(old(p.Rest()))
    ensures r.Ok? ==> Moved(p, r.used)
  {
    ghost var s := p.Rest();
    var ret, head := p.Decode(8);
    if ret != OK {
      return Fail(BAD_LEN);
    }
    assert forall i :: 0 <= i < 8 ==> head[i] == s[i];
    var len: int := Word(head, 2);
    var oxmLength: nat := head[7];
    // ofp_action_set_field_check
    if oxmLength + Pad(oxmLength) != len - 8 {
      return Fail(BAD_SET_LEN);
    }
    if p.plen < oxmLength {
      return Fail(BAD_SET_LEN);
    }
    if !(FieldKnown(head[6]) && Word(head, 4) == OFPXMC_OPENFLOW_BASIC) {
      return Fail(BAD_SET_TYPE);
    }
    var value;
    ret, value := p.Decode(len - 8);
    if ret != OK {
      return Fail(BAD_SET_LEN);
    }
    assert value[..oxmLength] == s[8..8 + oxmLength];
    return Ok(SetField(Word(head, 4), head[6], value[..oxmLength]), len);
  }

  // ofp_action_encap_parse
  method EncapParse(p: Pbuf) returns (r: Parsed<Action>)
    requires p.Readable() && p.plen >= 4
    modifies p`getp, p`plen
    ensures p.Readable() && r == ParseEncap(old(p.Rest()))
    ensures r.Ok? ==> Moved(p, r.used)
  {
    hide ParseProps;
    ghost var s := p.Rest();
    var ret, head := p.Decode(8);
    if ret != OK {
      return Fail(BAD_LEN);
    }
    assert forall i :: 0 <= i < 8 ==> head[i] == s[i];
    var len, packetType := Word(head, 2), Long(head, 4);
    assert len == Word(s, 2) && packetType == Long(s, 4);
    hide Word;
    hide Long;
    var end: int := p.getp + len - 8;
    var props := EdPropsParse(p, end);
    if props.Fail? {
      return Fail(props.fault);
    }
    if p.getp != end {
      return Fail(BAD_LEN);
    }
    return Ok(Encap(packetType, props.value), 8 + props.used);
  }

  // ofp_action_decap_parse
  method DecapParse(p: Pbuf) returns (r: Parsed<Action>)
    requires p.Readable() && p.plen >= 4
    modifies p`getp, p`plen
    ensures p.Readable() && r == ParseDecap(old(p.Rest()))
    ensures r.Ok? ==> Moved(p, r.used)
  {
    hide ParseProps;
    ghost var s := p.Rest();
    var ret, head := p.Decode(16);
    if ret != OK {
      return Fail(BAD_LEN);
    }
    assert forall i :: 0 <= i < 16 ==> head[i] == s[i];
    var len, cur, new_, pad := Word(head, 2), Long(head, 4), Long(head, 8), Long(head, 12);
    assert len == Word(s, 2) && cur == Long(s, 4) && new_ == Long(s, 8) && pad == Long(s, 12);
    hide Word;
    hide Long;
    var end: int := p.getp + len - 16;
    var props := EdPropsParse(p, end);
    if props.Fail? {
      return Fail(props.fault);
    }
    if p.getp != end {
      return Fail(BAD_LEN);
    }
    return Ok(Decap(cur, new_, pad, props.value), 16 + props.used);
  }

  // One round of the loop of ofp_action_parse.
  method OneActionParse(p: Pbuf) returns (r: Parsed<Action>)
    requires p.Readable()
    modifies p`getp, p`plen
    ensures p.Readable() && r == ParseAction(old(p.Rest()))
    ensures r.Ok? ==> Moved(p, r.used)
  {
    hide ParseSetField;
    hide ParseEncap;
    hide ParseDecap;
    hide Unbody;
    var ret, kind, length := TlvSneak(p);
    if ret != OK || p.plen < length {
      return Fail(BAD_LEN);
    }
    hide Word;
    var actionEnd := p.getp + length;
    if IsFixed(kind) {
      r := FixedParse(p, kind);
    } else if kind == OFPAT_SET_FIELD {
      r := SetFieldParse(p);
    } else if kind == OFPAT_ENCAP {
      r := EncapParse(p);
    } else if kind == OFPAT_DECAP {
      r := DecapParse(p);
    } else if kind == OFPAT_EXPERIMENTER {
      r := Fail(BAD_EXPERIMENTER);
    } else {
      r := Fail(BAD_TYPE);
    }
    if r.Ok? && p.getp != actionEnd {
      r := Fail(BAD_LEN);
    }
  }

  // ofp_action_parse
  method ActionParse(p: Pbuf, length: int) returns (r: Parsed<seq<Action>>)
    requires p.Readable()
    modifies p`getp, p`plen
    ensures p.Readable() && r == ParseActions(old(p.Rest()), length)
    ensures r.Ok? ==> Moved(p, r.used)
  {
    hide ParseAction;
    hide ParseActions;
    hide Prepend;
    ghost var s := p.Rest();
    var start := p.getp;
    var ofpat := p.getp;
    var acts: seq<Action> := [];
    PrependNothing(ParseActions(s, length));
    while ofpat < start + length
      invariant p.Readable() && start <= p.getp == ofpat && p.getp + p.plen == start + |s|
      invariant ParseActions(s, length) == Prepend(acts, ofpat - start, ParseActions(p.Rest(), start + length - ofpat))
      decreases p.plen
    {
      ParseActionsStep(p.Rest(), start + length - ofpat);
      var one := OneActionParse(p);
      if one.Fail? {
        PrependFail(acts, ofpat - start, one.fault);
        return Fail(one.fault);
      }
      PrependOne(acts, ofpat - start, one.value, one.used, ParseActions(p.Rest(), start + length - p.getp));
      acts := acts + [one.value];
      ofpat := ofpat + one.used;
    }
    PrependEnd(acts, ofpat - start);
    ParseActionsStep(p.Rest(), start + length - ofpat);
    return Ok(acts, ofpat - start);
  }

  lemma {:induction false} ParseActionsStep(s: seq<u8>, need: int)
    ensures ParseActions(s, need) ==
      if need <= 0 then Ok([], 0)
      else match ParseAction(s)
        case Fail(f) => Fail(f)
        case Ok(x, n) => Prepend([x], n, ParseActions(s[n..], need - n))
  {}
}
