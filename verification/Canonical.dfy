// Which accepted byte strings are the encoding of what they are parsed into. The parsers skip
// some bytes and do not compare some lengths; a string is canonical when those are as the
// encoder would write them.

module Canonical {
  import opened Bytes
  import opened Tlv
  import opened Oxm
  import opened ActionFormat
  import opened InstructionFormat

  // Every property of an encap or decap action declares its true length.
  predicate CanonicalProps(s: seq<u8>, need: int)
    decreases |s|
  {
    need > 0 && |s| >= PROP_SIZE ==> Word(s, 2) == PROP_SIZE && CanonicalProps(s[PROP_SIZE..], need - PROP_SIZE)
  }

  // The padding of a set-field action is zero, and properties are canonical.
  predicate CanonicalAction(s: seq<u8>)
    requires ParseAction(s).Ok?
  {
    var kind, len := Word(s, 0), Word(s, 2);
    if kind == OFPAT_SET_FIELD then forall k :: 8 + s[7] as int <= k < len ==> s[k] == 0
    else if kind == OFPAT_ENCAP then CanonicalProps(s[8..], len - 8)
    else if kind == OFPAT_DECAP then CanonicalProps(s[16..], len - 16)
    else true
  }

  predicate CanonicalActions(s: seq<u8>, need: int)
    decreases |s|
  {
    need > 0 && ParseAction(s).Ok? ==>
      CanonicalAction(s) && CanonicalActions(s[ParseAction(s).used..], need - ParseAction(s).used)
  }

  // An instruction declares the length that it takes.
  predicate CanonicalInstruction(s: seq<u8>)
    requires ParseInstruction(s).Ok?
  {
    && Word(s, 2) == ParseInstruction(s).used
    && (HasActions(Word(s, 0)) ==> CanonicalActions(s[8..], Word(s, 2) - 8))
  }

  predicate CanonicalMessage(s: seq<u8>)
    decreases |s|
  {
    s != [] && ParseInstruction(s).Ok? ==> CanonicalInstruction(s) && CanonicalMessage(s[ParseInstruction(s).used..])
  }

  // Properties.

  lemma PropIff(s: seq<u8>)
    requires ParseProp(s).Ok?
    ensures PropBytes(ParseProp(s).value) == s[..PROP_SIZE] <==> Word(s, 2) == PROP_SIZE
  {
    PutWordAt(s, 0);
    PutWordAt(s, 2);
    PutWordAt(s, 4);
    PutWordAt(s, 6);
    var p := ParseProp(s).value;
    var a, b := Put16(OFPPPT_PROP_PORT_NAME), Put16(p.flags) + Put16(p.pad) + p.name;
    assert PropBytes(p) == a + (Put16(PROP_SIZE) + b);
    assert s[..PROP_SIZE] == a + (s[2..4] + b);
    SplitEqual(a, Put16(PROP_SIZE) + b, a, s[2..4] + b);
    SplitEqual(Put16(PROP_SIZE), b, s[2..4], b);
    if s[2..4] == Put16(PROP_SIZE) {
      WordAt(s, 2, PROP_SIZE);
    }
  }

  lemma {:induction false} PropsIff(s: seq<u8>, need: int)
    requires ParseProps(s, need).Ok?
    ensures
      var r := ParseProps(s, need);
      PropsBytes(r.value) == s[..r.used] <==> CanonicalProps(s, need)
    decreases |s|
  {
    if need > 0 {
      PropIff(s);
      var rest := s[PROP_SIZE..];
      PropsIff(rest, need - PROP_SIZE);
      var p, ps := ParseProp(s).value, ParseProps(rest, need - PROP_SIZE);
      var r := ParseProps(s, need);
      hide Word;
      hide ParseProp;
      assert r.value == [p] + ps.value;
      assert r.value[1..] == ps.value;
      assert s[..r.used] == s[..PROP_SIZE] + rest[..ps.used];
      hide PropBytes;
      SplitEqual(PropBytes(p), PropsBytes(ps.value), s[..PROP_SIZE], rest[..ps.used]);
    }
  }

  // Actions.

  lemma ElementIff(kind: u16, body: seq<u8>, s: seq<u8>)
    requires 4 + |body| <= 65535 && 4 + |body| <= |s|
    requires Word(s, 0) == kind && Word(s, 2) == 4 + |body|
    ensures Element(kind, body) == s[..4 + |body|] <==> body == s[4..4 + |body|]
  {
    PutWordAt(s, 0);
    PutWordAt(s, 2);
    hide Put16;
    hide Word;
    var head := Put16(kind) + Put16(4 + |body|);
    assert Element(kind, body) == head + body;
    hide Element;
    assert s[..4] == head;
    assert s[..4 + |body|] == s[..4] + s[4..4 + |body|];
    SplitEqual(head, body, s[..4], s[4..4 + |body|]);
  }

  lemma BodyOfUnbody(kind: u16, b: seq<u8>)
    requires IsFixed(kind) && |b| == FixedSize(kind) - 4
    ensures HasBody(Unbody(kind, b)) && Body(Unbody(kind, b)) == b
  {
    if kind == OFPAT_OUTPUT {
      PutLongAt(b, 0);
      PutWordAt(b, 4);
      assert b == b[0..4] + b[4..6] + b[6..];
    } else {
      PutLongAt(b, 0);
      PutWordAt(b, 0);
      PutWordAt(b, 2);
      assert b == b[0..2] + b[2..4];
      assert b == b[0..4];
      assert b == [b[0]] + b[1..];
    }
    hide Put16;
    hide Put32;
    hide Word;
    hide Long;
  }

  lemma FixedIff(s: seq<u8>)
    requires ParseAction(s).Ok? && IsFixed(Word(s, 0))
    ensures ActionBytes(ParseAction(s).value) == s[..ParseAction(s).used]
  {
    var kind, n := Word(s, 0), ParseAction(s).used;
    var b := s[4..n];
    BodyOfUnbody(kind, b);
    UnbodyKind(kind, b);
    hide Unbody;
    hide Body;
    ElementIff(kind, b, s);
    hide Element;
    hide Word;
  }

  lemma ZeroIff(s: seq<u8>, i: nat, j: nat)
    requires i <= j <= |s|
    ensures s[i..j] == Zeros(j - i) <==> forall k :: i <= k < j ==> s[k] == 0
  {
    if s[i..j] == Zeros(j - i) {
      forall k | i <= k < j
        ensures s[k] == 0
      {
        assert s[i..j][k - i] == 0;
      }
    }
  }

  lemma SetFieldParts(s: seq<u8>)
    requires ParseAction(s).Ok? && Word(s, 0) == OFPAT_SET_FIELD
    ensures
      var n, len, a := s[7] as int, Word(s, 2), ParseAction(s).value;
      && ParseAction(s).used == len == 8 + n + Pad(n) <= |s|
      && a == SetField(Word(s, 4), s[6], s[8..8 + n])
      && s[4..8 + n] == Put16(Word(s, 4)) + [s[6], s[7]] + s[8..8 + n]
  {
    PutWordAt(s, 4);
    hide Put16;
  }

  lemma SetFieldBytes(s: seq<u8>)
    requires ParseAction(s).Ok? && Word(s, 0) == OFPAT_SET_FIELD
    ensures
      var n, len := s[7] as int, Word(s, 2);
      && ParseAction(s).used == len == 8 + n + Pad(n) <= |s|
      && ActionBytes(ParseAction(s).value) == Element(OFPAT_SET_FIELD, s[4..8 + n] + Zeros(Pad(n)))
  {
    SetFieldParts(s);
    hide ParseAction;
    hide Put16;
    hide Pad;
    hide Element;
    hide Word;
    assert |ParseAction(s).value.value| % 0x100 == s[7];
  }

  lemma SetFieldIff(s: seq<u8>)
    requires ParseAction(s).Ok? && Word(s, 0) == OFPAT_SET_FIELD
    ensures ActionBytes(ParseAction(s).value) == s[..ParseAction(s).used] <==> CanonicalAction(s)
  {
    hide ParseAction;
    hide Pad;
    hide Element;
    hide Word;
    hide ActionBytes;
    SetFieldBytes(s);
    var n, len := s[7] as int, Word(s, 2);
    ZeroIff(s, 8 + n, len);
    WithPropsIff(OFPAT_SET_FIELD, s[4..8 + n], Zeros(Pad(n)), s);
  }

  // An element of a fixed part and properties.
  lemma WithPropsIff(kind: u16, fixed: seq<u8>, props: seq<u8>, s: seq<u8>)
    requires 4 + |fixed| + |props| <= 65535 && 4 + |fixed| + |props| <= |s|
    requires Word(s, 0) == kind && Word(s, 2) == 4 + |fixed| + |props| && s[4..4 + |fixed|] == fixed
    ensures
      var n := 4 + |fixed| + |props|;
      Element(kind, fixed + props) == s[..n] <==> props == s[4 + |fixed|..n]
  {
    var n := 4 + |fixed| + |props|;
    ElementIff(kind, fixed + props, s);
    hide Element;
    hide Word;
    assert s[4..n] == s[4..4 + |fixed|] + s[4 + |fixed|..n];
    SplitEqual(fixed, props, fixed, s[4 + |fixed|..n]);
  }

  lemma EncapParts(s: seq<u8>)
    requires ParseAction(s).Ok? && Word(s, 0) == OFPAT_ENCAP
    ensures
      var r := ParseProps(s[8..], Word(s, 2) - 8);
      && r.Ok? && ParseAction(s).used == Word(s, 2) == 8 + r.used <= |s|
      && ActionBytes(ParseAction(s).value) == Element(OFPAT_ENCAP, s[4..8] + PropsBytes(r.value))
  {
    PutLongAt(s, 4);
    hide Put32;
    hide Long;
    hide ParseProps;
    hide PropsBytes;
    hide Element;
  }

  lemma DecapParts(s: seq<u8>)
    requires ParseAction(s).Ok? && Word(s, 0) == OFPAT_DECAP
    ensures
      var r := ParseProps(s[16..], Word(s, 2) - 16);
      && r.Ok? && ParseAction(s).used == Word(s, 2) == 16 + r.used <= |s|
      && ActionBytes(ParseAction(s).value) == Element(OFPAT_DECAP, s[4..16] + PropsBytes(r.value))
  {
    PutLongAt(s, 4);
    PutLongAt(s, 8);
    PutLongAt(s, 12);
    assert s[4..16] == s[4..8] + s[8..12] + s[12..16];
    hide Put32;
    hide Long;
    hide ParseProps;
    hide PropsBytes;
    hide Element;
  }

  lemma EncapIff(s: seq<u8>)
    requires ParseAction(s).Ok? && Word(s, 0) == OFPAT_ENCAP
    ensures ActionBytes(ParseAction(s).value) == s[..ParseAction(s).used] <==> CanonicalAction(s)
  {
    hide ParseAction;
    hide ParseProps;
    hide PropsBytes;
    hide CanonicalProps;
    hide ActionBytes;
    hide Element;
    EncapParts(s);
    var r := ParseProps(s[8..], Word(s, 2) - 8);
    PropsIff(s[8..], Word(s, 2) - 8);
    PropsExtent(s[8..], Word(s, 2) - 8);
    assert s[8..8 + r.used] == s[8..][..r.used];
    WithPropsIff(OFPAT_ENCAP, s[4..8], PropsBytes(r.value), s);
  }

  lemma DecapIff(s: seq<u8>)
    requires ParseAction(s).Ok? && Word(s, 0) == OFPAT_DECAP
    ensures ActionBytes(ParseAction(s).value) == s[..ParseAction(s).used] <==> CanonicalAction(s)
  {
    hide ParseAction;
    hide ParseProps;
    hide PropsBytes;
    hide CanonicalProps;
    hide ActionBytes;
    hide Element;
    DecapParts(s);
    var r := ParseProps(s[16..], Word(s, 2) - 16);
    PropsIff(s[16..], Word(s, 2) - 16);
    PropsExtent(s[16..], Word(s, 2) - 16);
    assert s[16..16 + r.used] == s[16..][..r.used];
    WithPropsIff(OFPAT_DECAP, s[4..16], PropsBytes(r.value), s);
  }

  lemma ActionIff(s: seq<u8>)
    requires ParseAction(s).Ok?
    ensures ActionBytes(ParseAction(s).value) == s[..ParseAction(s).used] <==> CanonicalAction(s)
  {
    var kind := Word(s, 0);
    hide ActionBytes;
    if IsFixed(kind) {
      FixedIff(s);
    } else if kind == OFPAT_SET_FIELD {
      SetFieldIff(s);
    } else if kind == OFPAT_ENCAP {
      EncapIff(s);
    } else {
      DecapIff(s);
    }
  }

  lemma {:induction false} ActionsIff(s: seq<u8>, need: int)
    requires ParseActions(s, need).Ok?
    ensures
      var r := ParseActions(s, need);
      ActionsBytes(r.value) == s[..r.used] <==> CanonicalActions(s, need)
    decreases |s|
  {
    hide ParseAction;
    hide CanonicalAction;
    hide ActionBytes;
    if need > 0 {
      ActionIff(s);
      ActionExtent(s);
      var a, n := ParseAction(s).value, ParseAction(s).used;
      var rest := s[n..];
      ActionsIff(rest, need - n);
      var acts, r := ParseActions(rest, need - n), ParseActions(s, need);
      assert r.value[1..] == acts.value;
      assert s[..r.used] == s[..n] + rest[..acts.used];
      SplitEqual(ActionBytes(a), ActionsBytes(acts.value), s[..n], rest[..acts.used]);
    }
  }

  // Instructions.

  lemma InstructionHead(s: seq<u8>)
    requires ParseInstruction(s).Ok? && |s| <= 65535
    requires InstructionBytes(ParseInstruction(s).value) == s[..ParseInstruction(s).used]
    ensures Word(s, 2) == ParseInstruction(s).used
  {
    var i, n := ParseInstruction(s).value, ParseInstruction(s).used;
    InstructionExtent(s);
    hide ParseInstruction;
    var body := Fields(i) + ActionsBytes(ActionsOf(i));
    hide Fields;
    hide ActionsBytes;
    ElementHead(TypeOf(i), body, []);
    assert Element(TypeOf(i), body) + [] == s[..n];
    hide Element;
    assert Word(s, 2) == Word(s[..n], 2);
  }

  lemma MetadataFields(s: seq<u8>)
    requires |s| >= 24
    ensures s[4..24] == Put32(Long(s, 4)) + Put64(Quad(s, 8)) + Put64(Quad(s, 16))
  {
    PutLongAt(s, 4);
    PutQuadAt(s, 8);
    PutQuadAt(s, 16);
    hide Put32;
    hide Put64;
    hide Long;
    hide Quad;
    assert s[4..24] == s[4..8] + s[8..16] + s[16..24];
  }

  lemma FieldsAre(s: seq<u8>)
    requires ParseInstruction(s).Ok?
    ensures
      var i := ParseInstruction(s).value;
      && TypeOf(i) == Word(s, 0) && 4 + |Fields(i)| <= ParseInstruction(s).used
      && s[4..4 + |Fields(i)|] == Fields(i)
      && (!i.WithActions? ==> ParseInstruction(s).used == 4 + |Fields(i)|)
      && (i.WithActions? ==> |Fields(i)| == 4)
  {
    hide ParseActions;
    hide Put32;
    hide Put64;
    hide Long;
    hide Quad;
    PutLongAt(s, 4);
    if Word(s, 0) == OFPIT_WRITE_METADATA {
      MetadataFields(s);
    }
    hide Word;
  }

  // The encoding of an instruction, in terms of the bytes it was parsed from.
  lemma PlainParts(s: seq<u8>)
    requires ParseInstruction(s).Ok? && !HasActions(Word(s, 0))
    ensures
      var n := ParseInstruction(s).used;
      4 <= n && InstructionBytes(ParseInstruction(s).value) == Element(Word(s, 0), s[4..n])
  {
    FieldsAre(s);
    var i := ParseInstruction(s).value;
    assert !i.WithActions?;
    hide ParseInstruction;
    hide Element;
    hide Fields;
    hide Word;
    assert Fields(i) + [] == Fields(i);
  }

  lemma ActionsParts(s: seq<u8>)
    requires ParseInstruction(s).Ok? && HasActions(Word(s, 0))
    ensures |s| >= 8
    ensures
      var r := ParseActions(s[8..], Word(s, 2) - 8);
      && r.Ok? && ParseInstruction(s).used == 8 + r.used <= |s|
      && InstructionBytes(ParseInstruction(s).value) == Element(Word(s, 0), s[4..8] + ActionsBytes(r.value))
  {
    PutLongAt(s, 4);
    hide Put32;
    hide Long;
    hide ParseActions;
    hide ActionsBytes;
    hide Element;
  }

  lemma PlainIff(s: seq<u8>)
    requires ParseInstruction(s).Ok? && !HasActions(Word(s, 0)) && Word(s, 2) == ParseInstruction(s).used
    ensures InstructionBytes(ParseInstruction(s).value) == s[..ParseInstruction(s).used]
  {
    hide ParseInstruction;
    hide InstructionBytes;
    hide Element;
    PlainParts(s);
    ElementIff(Word(s, 0), s[4..ParseInstruction(s).used], s);
  }

  lemma WithActionsIff(s: seq<u8>)
    requires ParseInstruction(s).Ok? && HasActions(Word(s, 0)) && Word(s, 2) == ParseInstruction(s).used
    ensures |s| >= 8
    ensures InstructionBytes(ParseInstruction(s).value) == s[..ParseInstruction(s).used]
      <==> CanonicalActions(s[8..], Word(s, 2) - 8)
  {
    hide ParseInstruction;
    hide InstructionBytes;
    hide Element;
    hide ParseActions;
    hide ActionsBytes;
    hide CanonicalActions;
    ActionsParts(s);
    var tail, need := s[8..], Word(s, 2) - 8;
    var r := ParseActions(tail, need);
    ActionsIff(tail, need);
    ActionsExtent(tail, need);
    assert s[8..8 + r.used] == tail[..r.used];
    WithPropsIff(Word(s, 0), s[4..8], ActionsBytes(r.value), s);
  }

  lemma InstructionIff(s: seq<u8>)
    requires ParseInstruction(s).Ok? && |s| <= 65535
    ensures InstructionBytes(ParseInstruction(s).value) == s[..ParseInstruction(s).used] <==> CanonicalInstruction(s)
  {
    hide ParseInstruction;
    hide InstructionBytes;
    hide CanonicalActions;
    hide HasActions;
    hide Word;
    if Word(s, 2) != ParseInstruction(s).used {
      if InstructionBytes(ParseInstruction(s).value) == s[..ParseInstruction(s).used] {
        InstructionHead(s);
      }
    } else if HasActions(Word(s, 0)) {
      WithActionsIff(s);
    } else {
      PlainIff(s);
    }
  }

  // The main result: an accepted message is the encoding of what it was parsed into exactly when
  // it is canonical.
  lemma {:induction false} MessageIff(s: seq<u8>)
    requires ParseInstructions(s).Ok? && |s| <= 65535
    ensures InstructionsBytes(ParseInstructions(s).value) == s <==> CanonicalMessage(s)
    decreases |s|
  {
    hide ParseInstruction;
    hide CanonicalInstruction;
    hide InstructionBytes;
    if s != [] {
      InstructionIff(s);
      InstructionExtent(s);
      var i, n := ParseInstruction(s).value, ParseInstruction(s).used;
      var rest := s[n..];
      MessageIff(rest);
      var r := ParseInstructions(s);
      assert r.value[1..] == ParseInstructions(rest).value;
      assert s == s[..n] + rest;
      SplitEqual(InstructionBytes(i), InstructionsBytes(ParseInstructions(rest).value), s[..n], rest);
    }
  }
}
