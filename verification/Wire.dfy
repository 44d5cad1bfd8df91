// The bytes on the wire, with the numbers of the OpenFlow 1.3 header file written out. The
// formats of the other files are named; here every type code, length and position is a literal.

module WireLayout {
  import opened Bytes
  import opened Tlv
  import opened Oxm
  import opened ActionFormat
  import opened InstructionFormat
  import opened BucketFormat
  import opened FieldSort
  import opened MatchFormat
  import opened TableFeaturesFormat
  import opened PropertyFormat
  import opened ElementFormat
  import opened ReplyPacking
  import Framing

  // Most significant byte first.
  lemma ByteOrder()
    ensures Put16(0x0102) == [1, 2]
    ensures Put32(0x0102_0304) == [1, 2, 3, 4]
    ensures Put64(0x0102_0304_0506_0708) == [1, 2, 3, 4, 5, 6, 7, 8]
    ensures Word([1, 2], 0) == 0x0102 && Long([1, 2, 3, 4], 0) == 0x0102_0304
    ensures Quad([1, 2, 3, 4, 5, 6, 7, 8], 0) == 0x0102_0304_0506_0708
  {
    assert Put16(0x0102) == [1, 2] && Put16(0x0304) == [3, 4];
    assert Put16(0x0506) == [5, 6] && Put16(0x0708) == [7, 8];
    assert Put32(0x0102_0304) == [1, 2] + [3, 4];
    assert Put32(0x0506_0708) == [5, 6] + [7, 8];
    PutPair(0x0102_0304, 0x0506_0708);
    var s: seq<u8> := [1, 2, 3, 4, 5, 6, 7, 8];
    assert Long(s, 0) == 0x0102_0304 && Long(s, 4) == 0x0506_0708;
  }

  lemma SmallWord(n: u8)
    ensures Put16(n) == [0, n]
  {
  }

  // An element whose type and length are below 256.
  lemma SmallElement(kind: u8, body: seq<u8>)
    requires 4 + |body| < 0x100
    ensures Element(kind, body) == [0, kind, 0, 4 + |body|] + body
  {
    SmallWord(kind);
    SmallWord(4 + |body|);
    hide Put16;
  }

  // One whose type is.
  lemma TypedElement(kind: u8, body: seq<u8>)
    requires 4 + |body| <= 65535
    ensures Element(kind, body) == [0, kind] + Put16(4 + |body|) + body
  {
    SmallWord(kind);
    hide Put16;
  }

  // Every action, for all values of its fields.
  lemma ActionLayout(a: Action)
    requires ActionOk(a) && |ActionBytes(a)| <= 65535
    ensures
      match a
      case Output(port, maxLen, pad) => ActionBytes(a) == [0, 0, 0, 16] + (Put32(port) + Put16(maxLen) + pad)
      case Plain(kind, pad) => kind in {11, 12, 16, 18, 24, 27} && ActionBytes(a) == [0, kind, 0, 8] + Put32(pad)
      case SetMplsTtl(ttl, pad) => ActionBytes(a) == [0, 15, 0, 8] + ([ttl] + pad)
      case SetNwTtl(ttl, pad) => ActionBytes(a) == [0, 23, 0, 8] + ([ttl] + pad)
      case Push(kind, ethertype, pad) =>
        kind in {17, 19, 26} && ActionBytes(a) == [0, kind, 0, 8] + (Put16(ethertype) + Put16(pad))
      case PopMpls(ethertype, pad) => ActionBytes(a) == [0, 20, 0, 8] + (Put16(ethertype) + Put16(pad))
      case SetQueue(id) => ActionBytes(a) == [0, 21, 0, 8] + Put32(id)
      case Group(id) => ActionBytes(a) == [0, 22, 0, 8] + Put32(id)
      case SetField(oxmClass, field, value) =>
        var pad := Zeros(Pad(|value|));
        && oxmClass == 0x8000
        && ActionBytes(a) ==
           [0, 25] + Put16(8 + |value| + |pad|) + ([0x80, 0, field, |value|] + value + pad)
      case Encap(packetType, props) =>
        && |ActionBytes(a)| == 8 + 24 * |props|
        && ActionBytes(a) == [0, 28] + Put16(|ActionBytes(a)|) + (Put32(packetType) + PropsBytes(props))
      case Decap(cur, new', pad, props) =>
        && |ActionBytes(a)| == 16 + 24 * |props|
        && ActionBytes(a) ==
           [0, 29] + Put16(|ActionBytes(a)|) + (Put32(cur) + Put32(new') + Put32(pad) + PropsBytes(props))
  {
    match a
    case SetField(oxmClass, field, value) =>
      SetFieldLayout(field, value);
    case Encap(packetType, props) =>
      PropsSize(props);
      TypedElement(28, Put32(packetType) + PropsBytes(props));
    case Decap(cur, new', pad, props) =>
      PropsSize(props);
      TypedElement(29, Put32(cur) + Put32(new') + Put32(pad) + PropsBytes(props));
    case _ =>
      FixedLayout(a);
  }

  lemma FixedLayout(a: Action)
    requires ActionOk(a) && HasBody(a)
    ensures Kind(a) < 0x100 && ActionBytes(a) == [0, Kind(a), 0, 4 + |Body(a)|] + Body(a)
  {
    hide Put16;
    hide Put32;
    SmallElement(Kind(a), Body(a));
  }

  lemma SetFieldLayout(field: u8, value: seq<u8>)
    requires |value| <= 255
    ensures ActionBytes(SetField(0x8000, field, value)) ==
      [0, 25] + Put16(8 + |value| + Pad(|value|)) + ([0x80, 0, field, |value|] + value + Zeros(Pad(|value|)))
  {
    var pad := Zeros(Pad(|value|));
    assert Put16(0x8000) == [0x80, 0];
    hide Put16;
    hide Pad;
    hide Element;
    assert Put16(0x8000) + [field, |value|] == [0x80, 0, field, |value|];
    TypedElement(25, [0x80, 0, field, |value|] + value + pad);
  }

  lemma PropLayout(p: Prop)
    ensures PropBytes(p) == [0, 1, 0, 24] + (Put16(p.flags) + Put16(p.pad) + p.name)
  {
    SmallWord(1);
    SmallWord(24);
    hide Put16;
  }

  // What the parser makes of an action of fixed size, and of one that it does not know.
  lemma FixedActionParses(s: seq<u8>)
    requires |s| >= 4
    ensures
      var kind, len, r := Word(s, 0), Word(s, 2), ParseAction(s);
      && (|s| < len ==> r == Fail(Ofp(2, 1)))
      && (len <= |s| && kind == 0 ==>
            r == if len == 16 then Ok(Output(Long(s, 4), Word(s, 8), s[10..16]), 16) else Fail(Ofp(2, 1)))
      && (len <= |s| && kind in {11, 12, 16, 18, 24, 27} ==>
            r == if len == 8 then Ok(Plain(kind, Long(s, 4)), 8) else Fail(Ofp(2, 1)))
      && (len <= |s| && kind in {17, 19, 26} ==>
            r == if len == 8 then Ok(Push(kind, Word(s, 4), Word(s, 6)), 8) else Fail(Ofp(2, 1)))
      && (len <= |s| && kind == 15 ==> r == if len == 8 then Ok(SetMplsTtl(s[4], s[5..8]), 8) else Fail(Ofp(2, 1)))
      && (len <= |s| && kind == 23 ==> r == if len == 8 then Ok(SetNwTtl(s[4], s[5..8]), 8) else Fail(Ofp(2, 1)))
      && (len <= |s| && kind == 20 ==>
            r == if len == 8 then Ok(PopMpls(Word(s, 4), Word(s, 6)), 8) else Fail(Ofp(2, 1)))
      && (len <= |s| && kind == 21 ==> r == if len == 8 then Ok(SetQueue(Long(s, 4)), 8) else Fail(Ofp(2, 1)))
      && (len <= |s| && kind == 22 ==> r == if len == 8 then Ok(Group(Long(s, 4)), 8) else Fail(Ofp(2, 1)))
      && (len <= |s| && kind == 0xffff ==> r == Fail(Ofp(1, 3)))
      && (len <= |s| && !(kind in {0, 11, 12} || 15 <= kind <= 29 || kind == 0xffff) ==> r == Fail(Ofp(2, 0)))
  {
    var kind, len := Word(s, 0), Word(s, 2);
    if len <= |s| && IsFixed(kind) && FixedSize(kind) <= |s| {
      BodyReads(s, FixedSize(kind));
    }
    hide Word;
    hide Long;
  }

  lemma BodyReads(s: seq<u8>, size: nat)
    requires size in {8, 16} && size <= |s|
    ensures
      var b := s[4..size];
      && b[0] == s[4] && (size == 8 ==> b[1..] == s[5..8])
      && Long(b, 0) == Long(s, 4) && Word(b, 0) == Word(s, 4) && Word(b, 2) == Word(s, 6)
      && (size == 16 ==> Word(b, 4) == Word(s, 8) && b[6..] == s[10..16])
  {
  }

  lemma PropRefused(s: seq<u8>)
    ensures |s| < 4 ==> ParseProp(s) == Fail(Ofp(2, 1))
    ensures |s| >= 4 && |s| < Word(s, 2) ==> ParseProp(s) == Fail(Ofp(2, 1))
    ensures |s| >= 4 && Word(s, 2) <= |s| && Word(s, 0) != 1 ==> ParseProp(s) == Fail(Ofp(2, 0))
  {
  }

  // An encap or decap action whose properties end elsewhere than its length says.
  lemma EncapRefused(s: seq<u8>)
    requires |s| >= 4 && Word(s, 0) in {28, 29} && Word(s, 2) <= |s|
    ensures
      var head := if Word(s, 0) == 28 then 8 else 16;
      && (|s| < head ==> ParseAction(s) == Fail(Ofp(2, 1)))
      && (head <= |s| ==>
            var props := ParseProps(s[head..], Word(s, 2) - head);
            && (props.Fail? ==> ParseAction(s) == Fail(props.fault))
            && (props.Ok? && head + props.used != Word(s, 2) ==> ParseAction(s) == Fail(Ofp(2, 1))))
  {
    hide Word;
    hide ParseProps;
  }

  // A set-field action: which are taken, and with which error the others are refused.
  lemma SetFieldParses(s: seq<u8>)
    requires |s| >= 4 && Word(s, 0) == 25
    ensures
      var len, r := Word(s, 2), ParseAction(s);
      && (|s| < len || |s| < 8 ==> r == Fail(Ofp(2, 1)))
      && (len <= |s| && 8 <= |s| ==>
            var n: nat := s[7];
            if len != 8 + n + Pad(n) then r == Fail(Ofp(2, 14))
            else if Word(s, 4) != 0x8000 || !FieldKnown(s[6]) then r == Fail(Ofp(2, 13))
            else r == Ok(SetField(0x8000, s[6], s[8..8 + n]), len))
  {
    hide Word;
    hide Pad;
  }

  // The match fields of the enumeration: 0 to 39 and 41 to 67, with or without mask.
  lemma KnownFields(number: u8, masked: bool)
    requires number < 128
    ensures
      var field := 2 * number + if masked then 1 else 0;
      FieldType(field) == number && (FieldKnown(field) <==> number < 40 || 40 < number < 68)
  {
  }

  // Every instruction, for all values of its fields.
  lemma InstructionLayout(i: Instruction)
    requires InstructionOk(i) && |InstructionBytes(i)| <= 65535
    ensures
      match i
      case GotoTable(tableId, pad) => InstructionBytes(i) == [0, 1, 0, 8] + ([tableId] + pad)
      case WriteMetadata(pad, metadata, mask) =>
        InstructionBytes(i) == [0, 2, 0, 24] + (Put32(pad) + Put64(metadata) + Put64(mask))
      case WithActions(kind, pad, acts) =>
        && kind in {3, 4, 5} && (kind == 5 ==> acts == [])
        && |InstructionBytes(i)| == 8 + |ActionsBytes(acts)|
        && InstructionBytes(i) == [0, kind] + Put16(|InstructionBytes(i)|) + (Put32(pad) + ActionsBytes(acts))
      case Meter(id) => InstructionBytes(i) == [0, 6, 0, 8] + Put32(id)
  {
    hide Put16;
    hide Put32;
    hide Put64;
    hide ActionsOk;
    match i
    case WithActions(kind, pad, acts) =>
      TypedElement(kind, Fields(i) + ActionsBytes(acts));
    case _ =>
      assert ActionsBytes([]) == [];
      assert Fields(i) + [] == Fields(i);
      SmallElement(InstructionFormat.TypeOf(i), Fields(i));
  }

  // With which error the parser refuses what is no instruction.
  lemma InstructionRefused(s: seq<u8>)
    ensures |s| < 4 ==> ParseInstruction(s) == Fail(Ofp(1, 6))
    ensures |s| >= 4 && |s| < Word(s, 2) ==> ParseInstruction(s) == Fail(Ofp(3, 7))
    ensures 4 <= |s| < 8 && Word(s, 2) <= |s| && 1 <= Word(s, 0) <= 6 ==> ParseInstruction(s) == Fail(Ofp(1, 6))
    ensures |s| >= 4 && Word(s, 2) <= |s| && Word(s, 0) == 0xffff ==> ParseInstruction(s) == Fail(Ofp(3, 1))
    ensures |s| >= 4 && Word(s, 2) <= |s| && (Word(s, 0) == 0 || 7 <= Word(s, 0) < 0xffff) ==>
      ParseInstruction(s) == Fail(Ofp(3, 0))
  {
    hide Word;
    hide ParseActions;
  }

  // Clear-actions with actions in it.
  lemma ClearWithActionsRefused(s: seq<u8>)
    requires |s| >= 8 && Word(s, 0) == 5 && Word(s, 2) <= |s|
    ensures
      var acts := ParseActions(s[8..], Word(s, 2) - 8);
      acts.Ok? && acts.value != [] ==> ParseInstruction(s) == Fail(Ofp(3, 7))
  {
    hide Word;
    hide ParseActions;
  }

  lemma BucketLayout(b: Bucket)
    requires |BucketBytes(b)| <= 65535
    ensures
      var s := BucketBytes(b);
      && |s| == 16 + |ActionsBytes(b.acts)|
      && s == Put16(|s|) + Put16(b.weight) + Put32(b.watchPort) + Put32(b.watchGroup) + Put32(b.pad)
              + ActionsBytes(b.acts)
  {
    hide Put16;
    hide Put32;
    hide ActionsBytes;
  }

  lemma BucketRefused(s: seq<u8>)
    ensures |s| < 16 || Word(s, 0) < 16 || |s| < Word(s, 0) ==> ParseBucket(s) == Fail(Ofp(1, 6))
  {
    hide Word;
    hide ParseActions;
  }

  lemma FieldLayout(f: OxmField)
    requires FieldOk(f)
    ensures FieldBytes(f) == [0x80, 0, f.field, |f.value|] + f.value
  {
    assert Put16(0x8000) == [0x80, 0];
    hide Put16;
  }

  // A match: type 1, the length without the padding, the fields, and zeros up to eight.
  lemma MatchLayout(fs: seq<OxmField>)
    requires 4 + |FieldsBytes(fs)| <= 65535
    ensures
      var n := 4 + |FieldsBytes(fs)|;
      MatchBytes(fs) == [0, 1] + Put16(n) + FieldsBytes(fs) + Zeros(Pad(n))
  {
    hide FieldsBytes;
    TypedElement(1, FieldsBytes(fs));
  }

  // Whatever the order on the wire, the fields of a parsed match are in the order of their
  // numbers; the mask bit does not count.
  lemma MatchIsSorted(mem: seq<u8>, plen: nat, i: nat, j: nat)
    requires plen <= |mem| && ParseMatch(mem, plen, true).Ok? && i < j < |ParseMatch(mem, plen, true).value|
    ensures ParseMatch(mem, plen, true).value[i].field / 2 <= ParseMatch(mem, plen, true).value[j].field / 2
  {
    MatchParseIsExact(mem, plen, true);
    var wire :| WellFormed(mem, plen, true, wire);
    hide ParseMatch;
    hide WellFormed;
  }

  lemma MatchRefused(mem: seq<u8>, plen: nat)
    requires plen <= |mem|
    ensures plen < 4 ==> ParseMatch(mem, plen, true) == Fail(Ofp(4, 1))
    ensures 4 <= plen && Word(mem, 0) != 1 ==> ParseMatch(mem, plen, true) == Fail(Ofp(4, 0))
    ensures 4 <= plen && Word(mem, 0) == 1 && plen < Word(mem, 2) + Pad(Word(mem, 2)) ==>
      ParseMatch(mem, plen, true) == Fail(Ofp(4, 1))
  {
    hide Word;
    hide Pad;
    hide ParseFields;
  }

  // A field of another class, and one of unknown number.
  lemma FieldRefused(mem: seq<u8>, pos: nat, end: nat, list: seq<OxmField>)
    requires pos < end && pos + 4 <= |mem|
    ensures Word(mem, pos) != 0x8000 ==> ParseFields(mem, pos, end, list) == Fail(Ofp(4, 0))
    ensures Word(mem, pos) == 0x8000 && !FieldKnown(mem[pos + 2]) ==>
      ParseFields(mem, pos, end, list) == Fail(Ofp(4, 6))
    ensures Word(mem, pos) == 0x8000 && FieldKnown(mem[pos + 2]) && end < pos + 4 + mem[pos + 3] ==>
      ParseFields(mem, pos, end, list) == Fail(Ofp(4, 1))
  {
    hide Word;
    hide Insert;
  }

  // A property of table features: which list goes with which type, and how its units look.
  lemma PropertyLayout(p: Property)
    requires Supported(p) && |PropertyBytes(p)| <= 65535
    ensures
      var body := Flatten(Wire(p.units));
      var n := 4 + |body|;
      p.kind < 0x100 && n <= 65535 && PropertyBytes(p) == [0, p.kind] + Put16(n) + body + Zeros(Pad(n))
    ensures
      match p.units
      case Instructions(types) =>
        p.kind in {0, 1} && forall k :: 0 <= k < |types| ==> Wire(p.units)[k] == Put16(types[k]) + [0, 4]
      case NextTables(ids) =>
        p.kind in {2, 3} && forall k :: 0 <= k < |ids| ==> Wire(p.units)[k] == [ids[k]]
      case Actions(acts) =>
        && p.kind in {4, 5, 6, 7}
        && forall k :: 0 <= k < |acts| ==> Wire(p.units)[k] == Put16(acts[k].0) + [0, 8] + Put32(acts[k].1)
      case OxmIds(ids) =>
        p.kind in {8, 10, 12, 13, 14, 15} && forall k :: 0 <= k < |ids| ==> Wire(p.units)[k] == Put32(ids[k])
  {
    SmallWord(4);
    SmallWord(8);
    hide Put16;
    hide Put32;
    hide Flatten;
    assert 4 + |Flatten(Wire(p.units))| <= 65535;
    TypedElement(p.kind, Flatten(Wire(p.units)));
  }

  // The headers in a property: which types are taken, and the errors for the others.
  lemma HeadersRefused(s: seq<u8>)
    ensures |s| < 4 ==> ParseInstType(s) == Fail(Ofp(3, 7)) && ParseHead(s) == Fail(Ofp(2, 1))
    ensures |s| >= 4 && |s| < Word(s, 2) ==> ParseInstType(s) == Fail(Ofp(3, 7)) && ParseHead(s) == Fail(Ofp(2, 1))
    ensures |s| >= 4 && Word(s, 2) <= |s| ==>
      var kind := Word(s, 0);
      && ParseInstType(s) == (if 1 <= kind <= 6 then Ok(kind, 4)
                              else if kind == 0xffff then Fail(Ofp(3, 1))
                              else Fail(Ofp(3, 0)))
      && ParseHead(s) == (if kind == 0xffff then Fail(Ofp(1, 3))
                          else if !(kind in {0, 11, 12} || 15 <= kind <= 29) then Fail(Ofp(2, 0))
                          else if |s| < 8 then Fail(Ofp(2, 1))
                          else Ok((kind, Long(s, 4)), 8))
  {
    hide Word;
    hide Long;
  }

  // Lists of ids: table ids fill what is left of the property, OXM ids must divide it.
  lemma {:induction false} IdsParse(s: seq<u8>, byte: nat)
    ensures ParseIds(s, byte) == if byte <= |s| then Ok(s[..byte], byte) else Fail(Ofp(13, 3))
    decreases byte
  {
    if 0 < byte && 0 < |s| {
      IdsParse(s[1..], byte - 1);
      assert byte <= |s| ==> s[..byte] == [s[0]] + s[1..][..byte - 1];
    }
  }

  lemma {:induction false} OxmsParse(s: seq<u8>, byte: nat)
    ensures
      var r := ParseOxms(s, byte);
      && (r.Ok? <==> byte % 4 == 0 && byte <= |s|)
      && (r.Ok? ==> r.used == byte && 4 * |r.value| == byte
                    && forall k :: 0 <= k < |r.value| ==> r.value[k] == Long(s, 4 * k))
      && (r.Fail? ==> r == Fail(Ofp(13, 3)))
    decreases byte
  {
    if 4 <= byte && 4 <= |s| {
      OxmsParse(s[4..], byte - 4);
      var r := ParseOxms(s, byte);
      if r.Ok? {
        forall k | 0 <= k < |r.value|
          ensures r.value[k] == Long(s, 4 * k)
        {
          if k > 0 {
            LongLater(s, 4 * (k - 1));
          }
        }
      }
    }
  }

  lemma LongLater(s: seq<u8>, i: nat)
    requires i + 8 <= |s|
    ensures Long(s[4..], i) == Long(s, i + 4)
  {
  }

  // A list of properties that is taken ends where the table says.
  lemma {:induction false} PropertiesFill(s: seq<u8>, end: int)
    requires AllMove(s, end)
    ensures ParseProperties(s, end).Ok? ==> ParseProperties(s, end).used == end
    decreases |s|
  {
    hide ParseProperty;
    hide Stalls;
    var r := ParseProperty(s);
    if r.Ok? && r.used < end {
      PropertiesFill(s[r.used..], end - r.used);
    }
  }

  // The types for which the parser reads which list, and the errors for the others.
  lemma PropertyKinds(s: seq<u8>)
    requires |s| >= 4 && !Stalls(s)
    ensures
      var kind, r := Word(s, 0), ParseProperty(s);
      && (Word(s, 2) < 4 || |s| < Word(s, 2) ==> r == Fail(Ofp(13, 3)))
      && (r.Ok? ==> r.value.kind == kind)
      && (r.Ok? && r.value.units.Instructions? ==> kind in {0, 1})
      && (r.Ok? && r.value.units.NextTables? ==> kind in {2, 3})
      && (r.Ok? && r.value.units.Actions? ==> kind in {4, 5, 6, 7})
      && (r.Ok? && r.value.units.OxmIds? ==> kind in {8, 10, 12, 13, 14, 15})
      && (4 <= Word(s, 2) <= |s| && kind in {0xfffe, 0xffff} ==> r == Fail(Ofp(1, 3)))
      && (4 <= Word(s, 2) <= |s| && (kind in {9, 11} || 16 <= kind < 0xfffe) ==> r == Fail(Ofp(13, 2)))
  {
    assert |s| >= 8 ==> Word(s[4..], 2) == Word(s, 6);
    hide Word;
    hide Pad;
    hide ParseInstTypes;
    hide ParseIds;
    hide ParseRounds;
    hide ParseOxms;
  }

  lemma HelloLayout(e: HelloElement)
    requires 4 + 4 * |e.bitmaps| <= 65535
    ensures
      var n := 4 + 4 * |e.bitmaps|;
      ElementBytes(e) == [0, 1] + Put16(n) + WordsBytes(e.bitmaps) + Zeros(Pad(n))
  {
    hide WordsBytes;
    TypedElement(1, WordsBytes(e.bitmaps));
  }

  lemma {:induction false} HelloWords(ws: seq<u32>, k: nat)
    requires k < |ws|
    ensures WordsBytes(ws)[4 * k..4 * k + 4] == Put32(ws[k])
  {
    hide Put32;
    if k > 0 {
      HelloWords(ws[1..], k - 1);
      assert WordsBytes(ws)[4..] == WordsBytes(ws[1..]);
    }
  }

  // An element of another type is passed over, padding included.
  lemma HelloSkips(kind: u16, body: seq<u8>, rest: seq<u8>)
    requires kind != 1 && 0 < |body| && 4 + |body| <= 65535
    ensures
      var e := Element(kind, body) + Zeros(Pad(4 + |body|));
      ParseElement(e + rest) == Ok([], |e|)
  {
    hide Word;
    hide Pad;
    var pad := Zeros(Pad(4 + |body|));
    EncodedHead(kind, body, pad + rest);
    assert Element(kind, body) + pad + rest == Element(kind, body) + (pad + rest);
    hide Element;
  }

  lemma HelloRefused(s: seq<u8>)
    ensures |s| < 4 || Word(s, 2) == 4 || Word(s, 2) == 0 ==> ParseElement(s) == Fail(Ofp(1, 6))
  {
  }

  // The header of a message, and of a multipart reply.
  lemma HeaderLayout(h: ReplyHeader)
    ensures ReplyBytes(h) ==
      [h.ofp.version, h.ofp.kind] + Put16(h.ofp.length) + Put32(h.ofp.xid)
      + Put16(h.mpType) + Put16(h.flags) + Put32(h.pad)
  {
    hide Put16;
    hide Put32;
  }

  // A message is there when its eight bytes of header are and the bytes they announce.
  lemma ReadyIff(s: seq<u8>)
    ensures Framing.Ready(s) <==> |s| >= 8 && Word(s, 2) <= |s|
  {
  }

  // A stream is cut where the length of such a header says.
  lemma AnnouncedIsLength(h: OfpHeader, rest: seq<u8>)
    ensures Framing.Announced(OfpBytes(h) + rest) == h.length
  {
    OfpRoundTrip(h, rest);
  }
}
