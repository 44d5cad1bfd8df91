// OpenFlow instructions: wire format, parser and encoder. An instruction nests a list of
// actions, which nest properties and OXM fields.

module InstructionFormat {
  import opened Bytes
  import opened Tlv
  import opened ActionFormat

  const OFPET_BAD_INSTRUCTION: u16 := 3
  const UNKNOWN_INST := Ofp(OFPET_BAD_INSTRUCTION, 0)
  const UNSUP_INST := Ofp(OFPET_BAD_INSTRUCTION, 1)
  const BAD_INST_LEN := Ofp(OFPET_BAD_INSTRUCTION, 7)

  const OFPIT_GOTO_TABLE: u16 := 1
  const OFPIT_WRITE_METADATA: u16 := 2
  const OFPIT_WRITE_ACTIONS: u16 := 3
  const OFPIT_APPLY_ACTIONS: u16 := 4
  const OFPIT_CLEAR_ACTIONS: u16 := 5
  const OFPIT_METER: u16 := 6
  const OFPIT_EXPERIMENTER: u16 := 0xffff

  datatype Instruction =
    | GotoTable(tableId: u8, pad3: seq<u8>)
    | WriteMetadata(pad4: u32, metadata: u64, mask: u64)
    | WithActions(kind: u16, pad4: u32, acts: seq<Action>)
    | Meter(meterId: u32)

  predicate HasActions(kind: u16)
  {
    kind in {OFPIT_WRITE_ACTIONS, OFPIT_APPLY_ACTIONS, OFPIT_CLEAR_ACTIONS}
  }

  predicate InstructionOk(i: Instruction)
  {
    match i
    case GotoTable(_, pad) => |pad| == 3
    case WithActions(kind, _, acts) =>
      HasActions(kind) && ActionsOk(acts) && (kind == OFPIT_CLEAR_ACTIONS ==> acts == [])
    case _ => true
  }

  predicate InstructionsOk(insts: seq<Instruction>)
  {
    forall i :: i in insts ==> InstructionOk(i)
  }

  function TypeOf(i: Instruction): u16
  {
    match i
    case GotoTable(_, _) => OFPIT_GOTO_TABLE
    case WriteMetadata(_, _, _) => OFPIT_WRITE_METADATA
    case WithActions(kind, _, _) => kind
    case Meter(_) => OFPIT_METER
  }

  // The fields behind type and length, and the actions behind the fields.

  function Fields(i: Instruction): seq<u8>
  {
    match i
    case GotoTable(tableId, pad) => [tableId] + pad
    case WriteMetadata(pad, metadata, mask) => Put32(pad) + Put64(metadata) + Put64(mask)
    case WithActions(_, pad, _) => Put32(pad)
    case Meter(meterId) => Put32(meterId)
  }

  function ActionsOf(i: Instruction): seq<Action>
  {
    if i.WithActions? then i.acts else []
  }

  function InstructionBytes(i: Instruction): seq<u8>
  {
    Element(TypeOf(i), Fields(i) + ActionsBytes(ActionsOf(i)))
  }

  function InstructionsBytes(insts: seq<Instruction>): seq<u8>
  {
    if insts == [] then [] else InstructionBytes(insts[0]) + InstructionsBytes(insts[1..])
  }

  // The three instructions that carry actions. A length below 8 leaves nothing to parse.
  function ParseWithActions(s: seq<u8>): (r: Parsed<Instruction>)
    requires |s| >= 4 && HasActions(Word(s, 0))
    ensures r.Ok? ==> 8 <= r.used <= |s| && InstructionOk(r.value)
  {
    if |s| < 8 then Fail(BAD_REQUEST_LEN)
    else match ParseActions(s[8..], Word(s, 2) - 8)
      case Fail(f) => Fail(f)
      case Ok(acts, n) =>
        if Word(s, 0) == OFPIT_CLEAR_ACTIONS && acts != [] then Fail(BAD_INST_LEN)
        else Ok(WithActions(Word(s, 0), Long(s, 4), acts), 8 + n)
  }

  // ofp_instruction_parse: every success moves forward.
  function ParseInstruction(s: seq<u8>): (r: Parsed<Instruction>)
    ensures r.Ok? ==> 8 <= r.used <= |s| && InstructionOk(r.value)
  {
    if |s| < 4 then Fail(BAD_REQUEST_LEN)
    else
      var kind := Word(s, 0);
      if |s| < Word(s, 2) then Fail(BAD_INST_LEN)
      else if kind == OFPIT_GOTO_TABLE then
        if |s| < 8 then Fail(BAD_REQUEST_LEN) else Ok(GotoTable(s[4], s[5..8]), 8)
      else if kind == OFPIT_WRITE_METADATA then
        if |s| < 24 then Fail(BAD_REQUEST_LEN)
        else Ok(WriteMetadata(Long(s, 4), Quad(s, 8), Quad(s, 16)), 24)
      else if HasActions(kind) then ParseWithActions(s)
      else if kind == OFPIT_METER then
        if |s| < 8 then Fail(BAD_REQUEST_LEN) else Ok(Meter(Long(s, 4)), 8)
      else if kind == OFPIT_EXPERIMENTER then Fail(UNSUP_INST)
      else Fail(UNKNOWN_INST)
  }

  // The loop of ofp_flow_mod_handle: instructions until the message is used up.
  function ParseInstructions(s: seq<u8>): (r: Parsed<seq<Instruction>>)
    ensures r.Ok? ==> r.used == |s| && InstructionsOk(r.value)
    decreases |s|
  {
    if s == [] then Ok([], 0)
    else match ParseInstruction(s)
      case Fail(f) => Fail(f)
      case Ok(i, n) =>
        match ParseInstructions(s[n..])
        case Fail(f) => Fail(f)
        case Ok(insts, m) => Ok([i] + insts, n + m)
  }

  lemma MetadataRoundTrip(i: Instruction, rest: seq<u8>)
    requires i.WriteMetadata?
    ensures ParseInstruction(InstructionBytes(i) + rest) == Ok(i, |InstructionBytes(i)|)
  {
    hide Word;
    hide Long;
    hide Quad;
    hide Put32;
    hide Put64;
    var fields := Put32(i.pad4) + Put64(i.metadata) + Put64(i.mask);
    assert InstructionBytes(i) == Element(OFPIT_WRITE_METADATA, fields + []);
    ElementParts(OFPIT_WRITE_METADATA, fields, [], rest);
    hide Element;
    var s := InstructionBytes(i) + rest;
    assert s[4..24] == fields;
    assert s[4..24][..4] == s[4..8] && s[4..24][4..12] == s[8..16] && s[4..24][12..] == s[16..24];
    LongAt(s, 4, i.pad4);
    QuadAt(s, 8, i.metadata);
    QuadAt(s, 16, i.mask);
  }

  lemma WithActionsRoundTrip(i: Instruction, rest: seq<u8>)
    requires i.WithActions? && InstructionOk(i) && |InstructionBytes(i)| <= 65535
    ensures ParseInstruction(InstructionBytes(i) + rest) == Ok(i, |InstructionBytes(i)|)
  {
    hide Word;
    hide Long;
    hide Put32;
    hide ActionsBytes;
    hide ParseActions;
    ActionsRoundTrip(i.acts, rest);
    ElementParts(i.kind, Put32(i.pad4), ActionsBytes(i.acts), rest);
    hide Element;
    LongAt(InstructionBytes(i) + rest, 4, i.pad4);
  }

  lemma SmallRoundTrip(i: Instruction, rest: seq<u8>)
    requires (i.GotoTable? || i.Meter?) && InstructionOk(i)
    ensures ParseInstruction(InstructionBytes(i) + rest) == Ok(i, |InstructionBytes(i)|)
  {
    hide Word;
    hide Long;
    hide Put32;
    ElementParts(TypeOf(i), Fields(i), [], rest);
    hide Element;
    var s := InstructionBytes(i) + rest;
    assert s[4..8] == Fields(i);
    if i.Meter? {
      LongAt(s, 4, i.meterId);
    } else {
      assert s[4..8][0] == s[4] && s[4..8][1..] == s[5..8];
    }
  }

  // Parsing an encoded instruction gives it back, whatever follows it.
  lemma InstructionRoundTrip(i: Instruction, rest: seq<u8>)
    requires InstructionOk(i) && |InstructionBytes(i)| <= 65535
    ensures ParseInstruction(InstructionBytes(i) + rest) == Ok(i, |InstructionBytes(i)|)
  {
    match i
    case WriteMetadata(_, _, _) => MetadataRoundTrip(i, rest);
    case WithActions(_, _, _) => WithActionsRoundTrip(i, rest);
    case _ => SmallRoundTrip(i, rest);
  }

  lemma ParseInstructionsCons(head: seq<u8>, tail: seq<u8>)
    requires ParseInstruction(head + tail).Ok? && ParseInstruction(head + tail).used == |head|
    ensures ParseInstructions(head + tail) ==
      match ParseInstructions(tail)
      case Fail(f) => Fail(f)
      case Ok(insts, m) => Ok([ParseInstruction(head + tail).value] + insts, |head| + m)
  {
    hide ParseInstruction;
    assert (head + tail)[|head|..] == tail;
  }

  // The main round trip: a list of instructions with everything nested in it survives the
  // wire, and so encodes to the same bytes again.
  lemma {:induction false} InstructionsRoundTrip(insts: seq<Instruction>)
    requires InstructionsOk(insts) && |InstructionsBytes(insts)| <= 65535
    ensures ParseInstructions(InstructionsBytes(insts)) == Ok(insts, |InstructionsBytes(insts)|)
  {
    hide InstructionBytes;
    hide InstructionOk;
    hide ParseInstruction;
    if insts != [] {
      var head, tail := InstructionBytes(insts[0]), InstructionsBytes(insts[1..]);
      InstructionRoundTrip(insts[0], tail);
      InstructionsRoundTrip(insts[1..]);
      ParseInstructionsCons(head, tail);
      assert insts == [insts[0]] + insts[1..];
    }
  }

  // Different lists have different encodings.
  lemma InstructionsInjective(a: seq<Instruction>, b: seq<Instruction>)
    requires InstructionsOk(a) && InstructionsOk(b) && |InstructionsBytes(a)| <= 65535
    requires InstructionsBytes(a) == InstructionsBytes(b)
    ensures a == b
  {
    InstructionsRoundTrip(a);
    InstructionsRoundTrip(b);
  }

  // Any accepted message is as long as the encoding of what it was parsed into.
  lemma InstructionExtent(s: seq<u8>)
    requires ParseInstruction(s).Ok?
    ensures |InstructionBytes(ParseInstruction(s).value)| == ParseInstruction(s).used
  {
    hide Word;
    hide ParseActions;
    var kind := Word(s, 0);
    if HasActions(kind) {
      ActionsExtent(s[8..], Word(s, 2) - 8);
    }
  }

  lemma {:induction false} InstructionsExtent(s: seq<u8>)
    requires ParseInstructions(s).Ok?
    ensures |InstructionsBytes(ParseInstructions(s).value)| == |s|
    decreases |s|
  {
    hide ParseInstruction;
    hide InstructionBytes;
    if s != [] {
      InstructionExtent(s);
      var n := ParseInstruction(s).used;
      InstructionsExtent(s[n..]);
      assert ParseInstructions(s).value[1..] == ParseInstructions(s[n..]).value;
    }
  }
}

module InstructionCodec {
  import opened Bytes
  import opened Results
  import opened Buffer
  import opened Tlv
  import opened ActionFormat
  import opened ActionParser
  import opened ActionEncoder
  import opened InstructionFormat

  // The branch of ofp_instruction_parse for the instructions that carry actions.
  method WithActionsParse(p: Pbuf) returns (r: Parsed<Instruction>)
    requires p.Readable() && p.plen >= 4 && HasActions(Word(p.Rest(), 0))
    modifies p`getp, p`plen
    ensures p.Readable() && r == ParseWithActions(old(p.Rest()))
    ensures r.Ok? ==> Moved(p, r.used)
  {
    hide ParseActions;
    ghost var s := p.Rest();
    var ret, head := p.Decode(8);
    if ret != OK {
      return Fail(BAD_REQUEST_LEN);
    }
    assert forall i :: 0 <= i < 8 ==> head[i] == s[i];
    var kind, len, pad := Word(head, 0), Word(head, 2), Long(head, 4);
    assert kind == Word(s, 0) && len == Word(s, 2) && pad == Long(s, 4);
    hide Word;
    hide Long;
    var length: int := len;
    var acts := ActionParse(p, length - 8);
    if acts.Fail? {
      return Fail(acts.fault);
    }
    if kind == OFPIT_CLEAR_ACTIONS && acts.value != [] {
      return Fail(BAD_INST_LEN);
    }
    return Ok(WithActions(kind, pad, acts.value), 8 + acts.used);
  }

  // ofp_instruction_parse
  method InstructionParse(p: Pbuf) returns (r: Parsed<Instruction>)
    requires p.Readable()
    modifies p`getp, p`plen
    ensures p.Readable() && r == ParseInstruction(old(p.Rest()))
    ensures r.Ok? ==> Moved(p, r.used)
  {
    hide ParseWithActions;
    ghost var s := p.Rest();
    var ret, kind, length := TlvSneak(p);
    if ret != OK {
      return Fail(BAD_REQUEST_LEN);
    }
    if p.plen < length {
      return Fail(BAD_INST_LEN);
    }
    if HasActions(kind) {
      r := WithActionsParse(p);
    } else if kind in {OFPIT_GOTO_TABLE, OFPIT_WRITE_METADATA, OFPIT_METER} {
      var size := if kind == OFPIT_WRITE_METADATA then 24 else 8;
      var b;
      ret, b := p.Decode(size);
      if ret != OK {
        return Fail(BAD_REQUEST_LEN);
      }
      assert forall i :: 0 <= i < size ==> b[i] == s[i];
      if kind == OFPIT_GOTO_TABLE {
        assert b[5..8] == s[5..8];
        r := Ok(GotoTable(b[4], b[5..8]), 8);
      } else if kind == OFPIT_WRITE_METADATA {
        r := Ok(WriteMetadata(Long(b, 4), Quad(b, 8), Quad(b, 16)), 24);
      } else {
        r := Ok(Meter(Long(b, 4)), 8);
      }
    } else if kind == OFPIT_EXPERIMENTER {
      r := Fail(UNSUP_INST);
    } else {
      r := Fail(UNKNOWN_INST);
    }
  }

  lemma {:induction false} ParseInstructionsStep(s: seq<u8>)
    ensures ParseInstructions(s) ==
      if s == [] then Ok([], 0)
      else match ParseInstruction(s)
        case Fail(f) => Fail(f)
        case Ok(x, n) => Prepend([x], n, ParseInstructions(s[n..]))
  {}

  // The instruction loop of ofp_flow_mod_handle: it ends on every input.
  method InstructionsParse(p: Pbuf) returns (r: Parsed<seq<Instruction>>)
    requires p.Readable()
    modifies p`getp, p`plen
    ensures p.Readable() && r == ParseInstructions(old(p.Rest()))
    ensures r.Ok? ==> p.plen == 0
  {
    hide ParseInstruction;
    hide ParseInstructions;
    hide Prepend;
    ghost var s := p.Rest();
    var start := p.getp;
    var insts: seq<Instruction> := [];
    PrependNothing(ParseInstructions(s));
    while p.plen > 0
      invariant p.Readable() && start <= p.getp
      invariant ParseInstructions(s) == Prepend(insts, p.getp - start, ParseInstructions(p.Rest()))
      decreases p.plen
    {
      ghost var n := p.getp - start;
      ParseInstructionsStep(p.Rest());
      var one := InstructionParse(p);
      if one.Fail? {
        PrependFail(insts, n, one.fault);
        return Fail(one.fault);
      }
      PrependOne(insts, n, one.value, one.used, ParseInstructions(p.Rest()));
      insts := insts + [one.value];
    }
    PrependEnd(insts, p.getp - start);
    ParseInstructionsStep(p.Rest());
    return Ok(insts, p.getp - start);
  }

  // The header of an instruction and its fields, for a given length.
  function InstructionHead(i: Instruction, length: u16): (s: seq<u8>)
    ensures |s| == 4 + |Fields(i)|
  {
    Put16(TypeOf(i)) + Put16(length) + Fields(i)
  }

  lemma InstructionPatched(before: seq<u8>, i: Instruction, length: u16)
    requires |InstructionBytes(i)| <= 65535
    ensures |InstructionBytes(i)| == 4 + |Fields(i)| + |ActionsBytes(ActionsOf(i))|
    ensures
      var w := before + InstructionHead(i, length) + ActionsBytes(ActionsOf(i));
      Overwrite(w, |before| + 2, Put16(|InstructionBytes(i)|)) == before + InstructionBytes(i)
  {
    hide Put16;
    hide Fields;
    hide ActionsBytes;
    var body := Fields(i) + ActionsBytes(ActionsOf(i));
    PatchElement(before, TypeOf(i), body, length);
    assert before + InstructionHead(i, length) + ActionsBytes(ActionsOf(i))
        == before + (Put16(TypeOf(i)) + Put16(length) + body);
  }

  lemma FieldsAreShort(i: Instruction)
    requires InstructionOk(i)
    ensures |Fields(i)| <= 20
    ensures |InstructionBytes(i)| == 4 + |Fields(i)| + |ActionsBytes(ActionsOf(i))|
  {}

  // One round of the loop of ofp_instruction_list_encode.
  method OneInstructionEncode(p: Pbuf, i: Instruction) returns (ret: Code, len: u16)
    requires CanEncode(p) && InstructionOk(i)
    modifies p`putp, p`plen, p`data
    ensures Encoded(p, ret, InstructionBytes(i)) && (ret == OK ==> len == |InstructionBytes(i)|)
  {
    hide InstructionBytes;
    hide ActionsBytes;
    hide Fields;
    hide Overwrite;
    hide Put16;
    hide InstructionHead;
    ghost var before := p.Written();
    var at := p.putp;
    FieldsAreShort(i);
    len := 4 + |Fields(i)|;
    ret := p.Encode(InstructionHead(i, len));
    if ret != OK {
      return;
    }
    var actsLen;
    ret, actsLen := ActionListEncode(p, ActionsOf(i));
    if ret != OK {
      return;
    }
    InstructionPatched(before, i, len);
    ret, len := LengthSum(len, actsLen);
    LengthSet(p, at + 2, len);
  }

  lemma {:induction false} InstructionsSplit(insts: seq<Instruction>, k: nat)
    requires k <= |insts|
    ensures InstructionsBytes(insts) == InstructionsBytes(insts[..k]) + InstructionsBytes(insts[k..])
  {
    hide InstructionBytes;
    if k == 0 {
      assert insts[..0] == [] && insts[0..] == insts;
    } else {
      InstructionsSplit(insts[1..], k - 1);
      assert insts[..k][1..] == insts[1..][..k - 1] && insts[1..][k - 1..] == insts[k..];
    }
  }

  lemma InstructionsNext(insts: seq<Instruction>, k: nat)
    requires k < |insts|
    ensures InstructionsBytes(insts[..k + 1]) == InstructionsBytes(insts[..k]) + InstructionBytes(insts[k])
    ensures |InstructionsBytes(insts[..k + 1])| <= |InstructionsBytes(insts)|
  {
    hide InstructionBytes;
    InstructionsSplit(insts[..k + 1], k);
    InstructionsSplit(insts, k + 1);
    assert insts[..k + 1][..k] == insts[..k] && insts[..k + 1][k..] == [insts[k]];
    assert InstructionsBytes([insts[k]]) == InstructionBytes(insts[k]) + InstructionsBytes([insts[k]][1..]);
  }

  // ofp_instruction_list_encode
  method InstructionListEncode(p: Pbuf, insts: seq<Instruction>) returns (ret: Code, total: u16)
    requires CanEncode(p) && InstructionsOk(insts)
    modifies p`putp, p`plen, p`data
    ensures Encoded(p, ret, InstructionsBytes(insts)) && (ret == OK ==> total == |InstructionsBytes(insts)|)
  {
    hide InstructionBytes;
    hide InstructionOk;
    ret, total := OK, 0;
    for k := 0 to |insts|
      invariant ret == OK && CanEncode(p)
      invariant total == |InstructionsBytes(insts[..k])| && p.plen + total == old(p.plen)
      invariant p.Written() == old(p.Written()) + InstructionsBytes(insts[..k])
    {
      InstructionsNext(insts, k);
      var len;
      ret, len := OneInstructionEncode(p, insts[k]);
      if ret != OK {
        return;
      }
      assert p.Written() == old(p.Written()) + InstructionsBytes(insts[..k + 1]);
      ret, total := LengthSum(total, len);
    }
    assert insts[..|insts|] == insts;
  }
}
