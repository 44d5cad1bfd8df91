// The parser of table-feature properties. It is looser than the format: lists of instructions and
// actions may run past the end of their property, and the actions of a property are stepped over
// by the length of the first one.

module PropertyFormat {
  import opened Bytes
  import opened Tlv
  import opened ActionFormat
  import opened InstructionFormat
  import opened TableFeaturesFormat

  const OFPET_TABLE_FEATURES_FAILED: u16 := 13
  const FEATURES_BAD_TYPE := Ofp(OFPET_TABLE_FEATURES_FAILED, 2)
  const FEATURES_BAD_LEN := Ofp(OFPET_TABLE_FEATURES_FAILED, 3)

  // s_prop_next_tables_parse
  function ParseIds(s: seq<u8>, byte: int): (r: Parsed<seq<u8>>)
    ensures r.Ok? ==> r.used <= |s|
    decreases |s|
  {
    if byte <= 0 then Ok([], 0)
    else if |s| < 1 then Fail(FEATURES_BAD_LEN)
    else match ParseIds(s[1..], byte - 1)
      case Fail(f) => Fail(f)
      case Ok(ids, n) => Ok([s[0]] + ids, 1 + n)
  }

  // s_table_feature_prop_oxm_parse: the ids must end where the property does.
  function ParseOxms(s: seq<u8>, byte: int): (r: Parsed<seq<u32>>)
    ensures r.Ok? ==> r.used <= |s|
    decreases |s|
  {
    if byte == 0 then Ok([], 0)
    else if byte < 0 || |s| < 4 then Fail(FEATURES_BAD_LEN)
    else match ParseOxms(s[4..], byte - 4)
      case Fail(f) => Fail(f)
      case Ok(ids, n) => Ok([Long(s, 0)] + ids, 4 + n)
  }

  // ofp_instruction_header_parse
  function ParseInstType(s: seq<u8>): (r: Parsed<u16>)
    ensures r.Ok? ==> r.used == 4 <= |s|
  {
    if |s| < 4 || |s| < Word(s, 2) then Fail(BAD_INST_LEN)
    else if 1 <= Word(s, 0) <= 6 then Ok(Word(s, 0), 4)
    else if Word(s, 0) == OFPIT_EXPERIMENTER then Fail(UNSUP_INST)
    else Fail(UNKNOWN_INST)
  }

  // s_ofp_instruction_header_parse
  function ParseInstTypes(s: seq<u8>, byte: int): (r: Parsed<seq<u16>>)
    ensures r.Ok? ==> r.used <= |s|
    decreases |s|
  {
    if byte <= 0 then Ok([], 0)
    else match ParseInstType(s)
      case Fail(f) => Fail(f)
      case Ok(t, _) =>
        match ParseInstTypes(s[4..], byte - 4)
        case Fail(f) => Fail(f)
        case Ok(ts, n) => Ok([t] + ts, 4 + n)
  }

  // One action of ofp_action_header_parse: eight bytes, whatever length it declares.
  function ParseHead(s: seq<u8>): (r: Parsed<(u16, u32)>)
    ensures r.Ok? ==> r.used == 8 <= |s|
  {
    if |s| < 4 || |s| < Word(s, 2) then Fail(BAD_LEN)
    else if ActionKnown(Word(s, 0)) then
      if |s| < 8 then Fail(BAD_LEN) else Ok((Word(s, 0), Long(s, 4)), 8)
    else if Word(s, 0) == OFPAT_EXPERIMENTER then Fail(BAD_EXPERIMENTER)
    else Fail(BAD_TYPE)
  }

  // ofp_action_header_parse: actions until the declared lengths reach length.
  function ParseHeads(s: seq<u8>, length: int): (r: Parsed<seq<(u16, u32)>>)
    ensures r.Ok? ==> r.used <= |s| && (length > 0 ==> 8 <= r.used)
    decreases |s|
  {
    if length <= 0 then Ok([], 0)
    else match ParseHead(s)
      case Fail(f) => Fail(f)
      case Ok(a, _) =>
        match ParseHeads(s[8..], length - Word(s, 2))
        case Fail(f) => Fail(f)
        case Ok(rest, n) => Ok([a] + rest, 8 + n)
  }

  // s_ofp_action_header_parse: rounds of step bytes until byte is reached.
  function ParseRounds(s: seq<u8>, byte: int, step: nat): (r: Parsed<seq<(u16, u32)>>)
    requires step > 0
    ensures r.Ok? ==> r.used <= |s|
    decreases |s|
  {
    if byte <= 0 then Ok([], 0)
    else match ParseHeads(s, step)
      case Fail(f) => Fail(f)
      case Ok(a, n) =>
        match ParseRounds(s[n..], byte - step, step)
        case Fail(f) => Fail(f)
        case Ok(rest, m) => Ok(a + rest, n + m)
  }

  predicate IsActions(kind: u16)
  {
    kind in {4, 5, 6, 7}
  }

  // The one input on which the parser does not come to an end: actions of which the first
  // declares length 0.
  predicate Stalls(s: seq<u8>)
  {
    |s| >= 8 && 4 < Word(s, 2) <= |s| && IsActions(Word(s, 0)) && Word(s, 6) == 0
  }

  // The units of a property of some kind, in the bytes behind its header.
  function ParseUnits(kind: u16, s: seq<u8>, byte: nat): (r: Parsed<Units>)
    requires IsActions(kind) && byte > 0 && |s| >= 4 ==> Word(s, 2) > 0
    ensures r.Ok? ==> r.used <= |s|
  {
    if kind in {0, 1} then
      if byte == 0 then Fail(Unset)
      else match ParseInstTypes(s, byte) case Fail(f) => Fail(f) case Ok(ts, n) => Ok(Instructions(ts), n)
    else if kind in {2, 3} then
      match ParseIds(s, byte) case Fail(f) => Fail(f) case Ok(ids, n) => Ok(NextTables(ids), n)
    else if IsActions(kind) then
      if |s| < 4 then Fail(FEATURES_BAD_LEN)
      else if byte == 0 then Fail(Unset)
      else match ParseRounds(s, byte, Word(s, 2)) case Fail(f) => Fail(f) case Ok(l, n) => Ok(Actions(l), n)
    else if kind in {8, 10, 12, 13, 14, 15} then
      match ParseOxms(s, byte) case Fail(f) => Fail(f) case Ok(ids, n) => Ok(OxmIds(ids), n)
    else if kind in {0xfffe, 0xffff} then Fail(BAD_EXPERIMENTER)
    else Fail(FEATURES_BAD_TYPE)
  }

  // One round of s_table_property_parse.
  function ParseProperty(s: seq<u8>): (r: Parsed<Property>)
    requires !Stalls(s)
    ensures r.Ok? ==> 4 <= r.used <= |s|
  {
    if |s| < 4 then Fail(FEATURES_BAD_LEN)
    else
      var kind, len := Word(s, 0), Word(s, 2);
      // The subtraction is unsigned in the source: a length under 4 is enormous.
      if len < 4 || |s| < len then Fail(FEATURES_BAD_LEN)
      else
        assert |s| >= 8 ==> Word(s[4..], 2) == Word(s, 6);
        match ParseUnits(kind, s[4..], len - 4)
        case Fail(f) => Fail(f)
        case Ok(u, n) =>
          if |s| - 4 - n < Pad(len) then Fail(FEATURES_BAD_LEN)
          else Ok(Property(kind, u), 4 + n + Pad(len))
  }

  // No property that is reached stalls.
  predicate AllMove(s: seq<u8>, end: int)
    decreases |s|
  {
    && !Stalls(s)
    && var r := ParseProperty(s); r.Ok? && r.used < end ==> AllMove(s[r.used..], end - r.used)
  }

  // s_table_property_parse: at least one property, and the list must end at end.
  function ParseProperties(s: seq<u8>, end: int): (r: Parsed<seq<Property>>)
    requires AllMove(s, end)
    ensures r.Ok? ==> r.used <= |s|
    decreases |s|
  {
    match ParseProperty(s)
    case Fail(f) => Fail(f)
    case Ok(p, n) =>
      if n < end then
        match ParseProperties(s[n..], end - n)
        case Fail(f) => Fail(f)
        case Ok(ps, m) => Ok([p] + ps, n + m)
      else if n == end then Ok([p], n)
      else Fail(FEATURES_BAD_LEN)
  }

  // Properties that the encoder writes and the parser reads: of instructions and actions there is
  // at least one, and the parser takes no experimenter instruction.
  predicate PropertyOk(p: Property)
  {
    && Supported(p)
    && match p.units
       case Instructions(types) => types != [] && forall t :: t in types ==> 1 <= t <= 6
       case Actions(actions) => actions != [] && forall a :: a in actions ==> ActionKnown(a.0)
       case _ => true
  }

  function UnitBytes(u: Units): seq<u8>
  {
    Flatten(Wire(u))
  }

  // What a list of units looks like behind its first one.

  lemma InstUnfold(ts: seq<u16>)
    requires ts != []
    ensures UnitBytes(Instructions(ts)) == Put16(ts[0]) + Put16(4) + UnitBytes(Instructions(ts[1..]))
  {
    hide Put16;
    assert Wire(Instructions(ts)) == [Put16(ts[0]) + Put16(4)] + Wire(Instructions(ts[1..]));
  }

  lemma IdUnfold(ids: seq<u8>)
    requires ids != []
    ensures UnitBytes(NextTables(ids)) == [ids[0]] + UnitBytes(NextTables(ids[1..]))
  {
    assert Wire(NextTables(ids)) == [[ids[0]]] + Wire(NextTables(ids[1..]));
  }

  lemma HeadUnfold(l: seq<(u16, u32)>)
    requires l != []
    ensures UnitBytes(Actions(l)) == Put16(l[0].0) + Put16(8) + Put32(l[0].1) + UnitBytes(Actions(l[1..]))
  {
    hide Put16;
    hide Put32;
    assert Wire(Actions(l)) == [Put16(l[0].0) + Put16(8) + Put32(l[0].1)] + Wire(Actions(l[1..]));
  }

  lemma OxmUnfold(ids: seq<u32>)
    requires ids != []
    ensures UnitBytes(OxmIds(ids)) == Put32(ids[0]) + UnitBytes(OxmIds(ids[1..]))
  {
    hide Put32;
    assert Wire(OxmIds(ids)) == [Put32(ids[0])] + Wire(OxmIds(ids[1..]));
  }

  lemma {:induction false} IdsRoundTrip(ids: seq<u8>, rest: seq<u8>)
    ensures |UnitBytes(NextTables(ids))| == |ids|
    ensures ParseIds(UnitBytes(NextTables(ids)) + rest, |ids|) == Ok(ids, |ids|)
    decreases |ids|
  {
    hide UnitBytes;
    if ids == [] {
      NoBytes();
    } else {
      IdUnfold(ids);
      IdsRoundTrip(ids[1..], rest);
      var s, tail := UnitBytes(NextTables(ids)) + rest, UnitBytes(NextTables(ids[1..])) + rest;
      assert s[0] == ids[0] && s[1..] == tail;
      assert ids == [ids[0]] + ids[1..];
    }
  }

  lemma NoBytes()
    ensures UnitBytes(NextTables([])) == UnitBytes(OxmIds([])) == []
    ensures UnitBytes(Instructions([])) == UnitBytes(Actions([])) == []
  {
  }

  lemma {:induction false} OxmsRoundTrip(ids: seq<u32>, rest: seq<u8>)
    ensures |UnitBytes(OxmIds(ids))| == 4 * |ids|
    ensures ParseOxms(UnitBytes(OxmIds(ids)) + rest, 4 * |ids|) == Ok(ids, 4 * |ids|)
    decreases |ids|
  {
    hide UnitBytes;
    hide Put32;
    hide Long;
    if ids == [] {
      NoBytes();
    } else {
      OxmUnfold(ids);
      OxmsRoundTrip(ids[1..], rest);
      var s, tail := UnitBytes(OxmIds(ids)) + rest, UnitBytes(OxmIds(ids[1..])) + rest;
      assert s[0..4] == Put32(ids[0]) && s[4..] == tail;
      LongAt(s, 0, ids[0]);
      assert ids == [ids[0]] + ids[1..];
    }
  }

  // Four bytes of an encoded instruction read as its type.
  lemma InstReads(t: u16, tail: seq<u8>)
    requires 1 <= t <= 6
    ensures
      var s := Put16(t) + Put16(4) + tail;
      ParseInstType(s) == Ok(t, 4) && s[4..] == tail
  {
    hide Put16;
    hide Word;
    var s := Put16(t) + Put16(4) + tail;
    assert s[0..2] == Put16(t) && s[2..4] == Put16(4) && s[4..] == tail;
    WordAt(s, 0, t);
    WordAt(s, 2, 4);
  }

  lemma {:induction false} InstsRoundTrip(ts: seq<u16>, rest: seq<u8>)
    requires forall t :: t in ts ==> 1 <= t <= 6
    ensures |UnitBytes(Instructions(ts))| == 4 * |ts|
    ensures ParseInstTypes(UnitBytes(Instructions(ts)) + rest, 4 * |ts|) == Ok(ts, 4 * |ts|)
    decreases |ts|
  {
    hide UnitBytes;
    hide Put16;
    hide ParseInstType;
    if ts == [] {
      NoBytes();
    } else {
      InstUnfold(ts);
      assert forall t :: t in ts[1..] ==> t in ts;
      InstsRoundTrip(ts[1..], rest);
      var tail := UnitBytes(Instructions(ts[1..])) + rest;
      var s := UnitBytes(Instructions(ts)) + rest;
      assert s == Put16(ts[0]) + Put16(4) + tail;
      assert ts[0] in ts;
      InstReads(ts[0], tail);
      assert ts == [ts[0]] + ts[1..];
    }
  }

  // A round of eight bytes over an encoded action reads that action.
  lemma HeadReads(a: (u16, u32), tail: seq<u8>)
    requires ActionKnown(a.0)
    ensures
      var s := Put16(a.0) + Put16(8) + Put32(a.1) + tail;
      && Word(s, 2) == 8 && s[8..] == tail
      && ParseHeads(s, 8) == Ok([a], 8)
  {
    hide Put16;
    hide Put32;
    hide Word;
    hide Long;
    hide ActionKnown;
    var s := Put16(a.0) + Put16(8) + Put32(a.1) + tail;
    assert s[0..2] == Put16(a.0) && s[2..4] == Put16(8) && s[4..8] == Put32(a.1) && s[8..] == tail;
    WordAt(s, 0, a.0);
    WordAt(s, 2, 8);
    LongAt(s, 4, a.1);
    assert ParseHead(s) == Ok(a, 8);
    assert ParseHeads(tail, 0) == Ok([], 0);
    assert [a] + [] == [a];
  }

  lemma {:induction false} RoundsRoundTrip(l: seq<(u16, u32)>, rest: seq<u8>)
    requires forall a :: a in l ==> ActionKnown(a.0)
    ensures |UnitBytes(Actions(l))| == 8 * |l|
    ensures ParseRounds(UnitBytes(Actions(l)) + rest, 8 * |l|, 8) == Ok(l, 8 * |l|)
    decreases |l|
  {
    hide UnitBytes;
    hide Put16;
    hide Put32;
    hide ParseHeads;
    hide ActionKnown;
    if l == [] {
      NoBytes();
    } else {
      HeadUnfold(l);
      RoundsRoundTrip(l[1..], rest);
      var tail := UnitBytes(Actions(l[1..])) + rest;
      var s := UnitBytes(Actions(l)) + rest;
      assert s == Put16(l[0].0) + Put16(8) + Put32(l[0].1) + tail;
      assert l[0] in l;
      HeadReads(l[0], tail);
      assert l == [l[0]] + l[1..];
    }
  }

  // The first action of a list declares length 8.
  lemma FirstLength(l: seq<(u16, u32)>, rest: seq<u8>)
    requires l != []
    ensures |UnitBytes(Actions(l))| >= 8 && Word(UnitBytes(Actions(l)) + rest, 2) == 8
  {
    hide UnitBytes;
    hide Put16;
    hide Put32;
    hide Word;
    HeadUnfold(l);
    var s := UnitBytes(Actions(l)) + rest;
    assert s[2..4] == Put16(8);
    WordAt(s, 2, 8);
  }

  lemma UnitsRoundTrip(p: Property, rest: seq<u8>)
    requires PropertyOk(p)
    ensures IsActions(p.kind) ==> |UnitBytes(p.units)| >= 8 && Word(UnitBytes(p.units) + rest, 2) == 8
    ensures ParseUnits(p.kind, UnitBytes(p.units) + rest, |UnitBytes(p.units)|) == Ok(p.units, |UnitBytes(p.units)|)
  {
    hide UnitBytes;
    hide Word;
    match p.units
    case Instructions(ts) => InstsRoundTrip(ts, rest);
    case NextTables(ids) => IdsRoundTrip(ids, rest);
    case Actions(l) =>
      FirstLength(l, rest);
      RoundsRoundTrip(l, rest);
    case OxmIds(ids) => OxmsRoundTrip(ids, rest);
  }

  lemma PropertyIs(p: Property)
    ensures
      var body := UnitBytes(p.units);
      |Extent(p)| == 4 + |body| && PropertyBytes(p) == Element(p.kind, body) + Zeros(Pad(4 + |body|))
  {
    hide Flatten;
    hide Wire;
    hide Element;
    hide Zeros;
  }

  lemma PaddedParts(kind: u16, body: seq<u8>, pad: seq<u8>, rest: seq<u8>)
    requires 4 + |body| <= 65535
    ensures
      var s := Element(kind, body) + pad + rest;
      Word(s, 0) == kind && Word(s, 2) == 4 + |body| && s[4..] == body + (pad + rest)
  {
    ElementHead(kind, body, pad + rest);
    hide *;
    assert Element(kind, body) + pad + rest == Element(kind, body) + (pad + rest);
  }

  // The header of an encoded property, and where its units and its padding are.
  lemma PropertyParts(p: Property, rest: seq<u8>)
    requires |Extent(p)| <= 65535
    ensures
      var s, body := PropertyBytes(p) + rest, UnitBytes(p.units);
      && |s| >= 4 && Word(s, 0) == p.kind && Word(s, 2) == 4 + |body|
      && |PropertyBytes(p)| == 4 + |body| + Pad(4 + |body|)
      && s[4..] == body + (Zeros(Pad(4 + |body|)) + rest)
  {
    hide *;
    PropertyIs(p);
    PaddedParts(p.kind, UnitBytes(p.units), Zeros(Pad(4 + |UnitBytes(p.units)|)), rest);
  }

  lemma PropertyRoundTrip(p: Property, rest: seq<u8>)
    requires PropertyOk(p) && |PropertyBytes(p)| <= 65535
    ensures !Stalls(PropertyBytes(p) + rest)
    ensures ParseProperty(PropertyBytes(p) + rest) == Ok(p, |PropertyBytes(p)|)
  {
    assert |Extent(p)| <= 65535;
    PropertyParts(p, rest);
    hide PropertyBytes;
    hide UnitBytes;
    hide ParseUnits;
    hide Pad;
    var s, body := PropertyBytes(p) + rest, UnitBytes(p.units);
    var tail := Zeros(Pad(4 + |body|)) + rest;
    UnitsRoundTrip(p, tail);
    hide PropertyOk;
    assert |s| >= 8 ==> Word(s[4..], 2) == Word(s, 6);
    hide Word;
  }

  lemma PropertiesUnfold(ps: seq<Property>)
    requires ps != []
    ensures PropertiesBytes(ps) == PropertyBytes(ps[0]) + PropertiesBytes(ps[1..])
    ensures ps == [ps[0]] + ps[1..] && |PropertyBytes(ps[0])| >= 4
  {
    hide Extent;
  }

  // The parser comes to an end on s, and reads ps up to end.
  predicate Survives(s: seq<u8>, end: nat, ps: seq<Property>)
  {
    AllMove(s, end) && ParseProperties(s, end) == Ok(ps, end)
  }

  lemma LastProperty(p: Property, head: seq<u8>, tail: seq<u8>)
    requires !Stalls(head + tail) && ParseProperty(head + tail) == Ok(p, |head|)
    ensures Survives(head + tail, |head|, [p])
  {
    hide ParseProperty;
    hide Stalls;
  }

  lemma MoreProperties(p: Property, head: seq<u8>, tail: seq<u8>, ps: seq<Property>, m: nat)
    requires !Stalls(head + tail) && ParseProperty(head + tail) == Ok(p, |head|)
    requires 0 < m && Survives(tail, m, ps)
    ensures Survives(head + tail, |head| + m, [p] + ps)
  {
    hide ParseProperty;
    hide Stalls;
    assert (head + tail)[|head|..] == tail;
  }

  predicate AllOk(ps: seq<Property>)
  {
    forall p :: p in ps ==> PropertyOk(p)
  }

  lemma AllOkUnfold(ps: seq<Property>)
    requires ps != [] && AllOk(ps)
    ensures PropertyOk(ps[0]) && AllOk(ps[1..])
  {
    hide PropertyOk;
    assert ps[0] in ps;
  }

  lemma PropertiesEnd(ps: seq<Property>)
    requires |ps| == 1
    ensures ps == [ps[0]] && PropertiesBytes(ps) == PropertyBytes(ps[0])
  {
    PropertiesUnfold(ps);
    hide PropertyBytes;
  }

  // A non-empty list of such properties survives the wire.
  lemma {:induction false} PropertiesRoundTrip(ps: seq<Property>, rest: seq<u8>)
    requires ps != [] && AllOk(ps) && |PropertiesBytes(ps)| <= 65535
    ensures Survives(PropertiesBytes(ps) + rest, |PropertiesBytes(ps)|, ps)
    decreases |ps|
  {
    hide *;
    PropertiesUnfold(ps);
    AllOkUnfold(ps);
    if |ps| == 1 {
      PropertiesEnd(ps);
      PropertyRoundTrip(ps[0], rest);
      LastProperty(ps[0], PropertyBytes(ps[0]), rest);
    } else {
      var head, more := PropertyBytes(ps[0]), PropertiesBytes(ps[1..]);
      PropertiesUnfold(ps[1..]);
      PropertiesRoundTrip(ps[1..], rest);
      PropertyRoundTrip(ps[0], more + rest);
      MoreProperties(ps[0], head, more + rest, ps[1..], |more|);
      assert head + more + rest == head + (more + rest);
    }
  }

  // Whatever the bytes are, what comes out of the parser is a property of this kind.

  lemma {:induction false} InstTypesAreKnown(s: seq<u8>, byte: int)
    ensures
      var r := ParseInstTypes(s, byte);
      r.Ok? ==> (byte > 0 ==> r.value != []) && forall t :: t in r.value ==> 1 <= t <= 6
    decreases |s|
  {
    hide Word;
    if byte > 0 && ParseInstType(s).Ok? {
      InstTypesAreKnown(s[4..], byte - 4);
    }
  }

  lemma {:induction false} HeadsAreKnown(s: seq<u8>, length: int)
    ensures
      var r := ParseHeads(s, length);
      r.Ok? ==> (length > 0 ==> r.value != []) && forall a :: a in r.value ==> ActionKnown(a.0)
    decreases |s|
  {
    hide Word;
    hide ActionKnown;
    if length > 0 && ParseHead(s).Ok? {
      HeadsAreKnown(s[8..], length - Word(s, 2));
    }
  }

  lemma {:induction false} RoundsAreKnown(s: seq<u8>, byte: int, step: nat)
    requires step > 0
    ensures
      var r := ParseRounds(s, byte, step);
      r.Ok? ==> (byte > 0 ==> r.value != []) && forall a :: a in r.value ==> ActionKnown(a.0)
    decreases |s|
  {
    hide ParseHeads;
    hide ActionKnown;
    HeadsAreKnown(s, step);
    var one := ParseHeads(s, step);
    if byte > 0 && one.Ok? {
      RoundsAreKnown(s[one.used..], byte - step, step);
    }
  }

  lemma ParsedIsOk(s: seq<u8>)
    requires !Stalls(s)
    ensures ParseProperty(s).Ok? ==> PropertyOk(ParseProperty(s).value)
  {
    if ParseProperty(s).Ok? {
      assert |s| >= 8 ==> Word(s[4..], 2) == Word(s, 6);
      hide Word;
      hide ParseRounds;
      hide ParseInstTypes;
      hide ActionKnown;
      var kind, byte := Word(s, 0), Word(s, 2) - 4;
      InstTypesAreKnown(s[4..], byte);
      if IsActions(kind) {
        RoundsAreKnown(s[4..], byte, Word(s[4..], 2));
      }
    }
  }

  lemma {:induction false} ParsedAreOk(s: seq<u8>, end: int)
    requires AllMove(s, end)
    ensures var r := ParseProperties(s, end); r.Ok? ==> r.value != [] && AllOk(r.value)
    decreases |s|
  {
    hide ParseProperty;
    hide Stalls;
    hide PropertyOk;
    ParsedIsOk(s);
    var r := ParseProperty(s);
    if r.Ok? && r.used < end {
      ParsedAreOk(s[r.used..], end - r.used);
    }
  }

  // So the properties that survive the wire are exactly these.
  lemma PropertiesRoundTripIff(ps: seq<Property>, rest: seq<u8>)
    requires ps != [] && |PropertiesBytes(ps)| <= 65535
    ensures Survives(PropertiesBytes(ps) + rest, |PropertiesBytes(ps)|, ps) <==> AllOk(ps)
  {
    if AllOk(ps) {
      PropertiesRoundTrip(ps, rest);
    } else if Survives(PropertiesBytes(ps) + rest, |PropertiesBytes(ps)|, ps) {
      ParsedAreOk(PropertiesBytes(ps) + rest, |PropertiesBytes(ps)|);
    }
  }

  // The whole parser by single rounds of its loops: in front of a property, or inside the actions
  // of one that declares len bytes, with the bytes that are left and the distance to the end.
  datatype Position =
    | Reading(s: seq<u8>, end: int)
    | Acting(s: seq<u8>, byte: int, step: nat, len: u16, end: int)
    | Ended

  // A property of actions that the loop over them is entered for.
  predicate ListsActions(s: seq<u8>)
  {
    |s| >= 8 && 4 < Word(s, 2) <= |s| && IsActions(Word(s, 0))
  }

  // In front of the next property, or at the end of the list.
  function Next(s: seq<u8>, n: nat, end: int): Position
  {
    if |s| < n || end <= n then Ended else Reading(s[n..], end - n)
  }

  // Behind the actions of a property of len bytes.
  function Behind<T>(r: Parsed<T>, s: seq<u8>, len: u16, end: int): Position
    requires r.Ok? ==> r.used <= |s|
  {
    match r case Fail(_) => Ended case Ok(_, n) => Next(s[n..], Pad(len), end - n)
  }

  function After(r: Parsed<Property>, s: seq<u8>, end: int): Position
  {
    match r case Fail(_) => Ended case Ok(_, n) => Next(s, n, end)
  }

  function Round(at: Position): Position
  {
    match at
    case Ended => Ended
    case Reading(s, end) =>
      if ListsActions(s) then Acting(s[4..], Word(s, 2) - 4, Word(s, 6), Word(s, 2), end - 4)
      else After(ParseProperty(s), s, end)
    case Acting(s, byte, step, len, end) =>
      if byte <= 0 then Next(s, Pad(len), end)
      else match ParseHeads(s, step)
        case Fail(_) => Ended
        case Ok(_, n) => Acting(s[n..], byte - step, step, len, end - n)
  }

  function Rounds(at: Position, k: nat): Position
    decreases k
  {
    if k == 0 then at else Rounds(Round(at), k - 1)
  }

  lemma {:induction false} RoundsAdd(at: Position, j: nat, k: nat)
    ensures Rounds(at, j + k) == Rounds(Rounds(at, j), k)
    decreases j
  {
    hide Round;
    if j > 0 {
      RoundsAdd(Round(at), j - 1, k);
    }
  }

  lemma {:induction false} EndedStays(k: nat)
    ensures Rounds(Ended, k) == Ended
  {
    if k > 0 {
      EndedStays(k - 1);
    }
  }

  lemma OneRound(at: Position)
    ensures Rounds(at, 1) == Round(at)
  {
    hide Round;
    assert Rounds(at, 1) == Rounds(Round(at), 0);
  }

  lemma {:induction false} BehindStep(s: seq<u8>, byte: int, step: nat, len: u16, end: int)
    requires step > 0
    ensures
      var one := ParseHeads(s, step);
      Behind(ParseRounds(s, byte, step), s, len, end) ==
        if byte <= 0 then Next(s, Pad(len), end)
        else if one.Fail? then Ended
        else Behind(ParseRounds(s[one.used..], byte - step, step), s[one.used..], len, end - one.used)
  {
    hide ParseHeads;
    hide Pad;
    hide Next;
    assert s[0..] == s;
    var one := ParseHeads(s, step);
    if byte > 0 && one.Ok? {
      var n, rest := one.used, ParseRounds(s[one.used..], byte - step, step);
      assert rest.Ok? ==> s[n..][rest.used..] == s[n + rest.used..];
    }
  }

  lemma ActingRound(s: seq<u8>, byte: int, step: nat, len: u16, end: int)
    ensures
      var one := ParseHeads(s, step);
      Round(Acting(s, byte, step, len, end)) ==
        if byte <= 0 then Next(s, Pad(len), end)
        else if one.Fail? then Ended
        else Acting(s[one.used..], byte - step, step, len, end - one.used)
  {
    hide ParseHeads;
    hide Next;
  }

  // The rounds over the actions of a property, as far as they go.
  lemma {:induction false} ActionRounds(s: seq<u8>, byte: int, step: nat, len: u16, end: int) returns (k: nat)
    requires step > 0
    ensures Rounds(Acting(s, byte, step, len, end), k) == Behind(ParseRounds(s, byte, step), s, len, end)
    decreases |s|
  {
    hide *;
    var at, one := Acting(s, byte, step, len, end), ParseHeads(s, step);
    OneRound(at);
    ActingRound(s, byte, step, len, end);
    BehindStep(s, byte, step, len, end);
    k := 1;
    if byte > 0 && one.Ok? {
      var j := ActionRounds(s[one.used..], byte - step, step, len, end - one.used);
      RoundsAdd(at, 1, j);
      k := 1 + j;
    }
  }

  // With steps of 0 there is no end to them.
  lemma {:induction false} ActionsStay(s: seq<u8>, byte: int, len: u16, end: int, k: nat)
    requires byte > 0
    ensures Rounds(Acting(s, byte, 0, len, end), k) == Acting(s, byte, 0, len, end)
    decreases k
  {
    if k > 0 {
      assert Round(Acting(s, byte, 0, len, end)) == Acting(s, byte, 0, len, end);
      ActionsStay(s, byte, len, end, k - 1);
    }
  }

  // The loop over the actions of a property comes to an end exactly when its steps are not 0.
  lemma ActionsEndIff(s: seq<u8>, byte: int, step: nat, len: u16, end: int)
    requires byte > 0
    ensures
      var at := Acting(s, byte, step, len, end);
      (exists k: nat :: !Rounds(at, k).Acting?) <==> step > 0
  {
    hide Rounds;
    if step > 0 {
      var k := ActionRounds(s, byte, step, len, end);
      assert !Rounds(Acting(s, byte, step, len, end), k).Acting?;
    } else {
      forall k: nat
        ensures Rounds(Acting(s, byte, step, len, end), k).Acting?
      {
        ActionsStay(s, byte, len, end, k);
      }
    }
  }

  // What is read and what is left behind the actions of a property.
  lemma ActionProperty(s: seq<u8>, end: int)
    requires ListsActions(s) && Word(s, 6) > 0
    ensures !Stalls(s)
    ensures
      var rounds := ParseRounds(s[4..], Word(s, 2) - 4, Word(s, 6));
      After(ParseProperty(s), s, end) == Behind(rounds, s[4..], Word(s, 2), end - 4)
  {
    assert Word(s[4..], 2) == Word(s, 6);
    hide Word;
    hide Pad;
    hide ParseRounds;
    var rounds := ParseRounds(s[4..], Word(s, 2) - 4, Word(s, 6));
    if rounds.Ok? && rounds.used + Pad(Word(s, 2)) <= |s| - 4 {
      var n, pad := rounds.used, Pad(Word(s, 2));
      assert s[4..][n..][pad..] == s[4 + n + pad..];
    }
  }

  lemma ReadingRound(s: seq<u8>, end: int)
    ensures ListsActions(s) ==>
      Round(Reading(s, end)) == Acting(s[4..], Word(s, 2) - 4, Word(s, 6), Word(s, 2), end - 4)
    ensures !ListsActions(s) ==>
      && !Stalls(s)
      && Round(Reading(s, end)) == After(ParseProperty(s), s, end)
  {
    hide Word;
    hide ParseProperty;
    hide After;
  }

  // The rounds over one property that does not stall.
  lemma PropertyRounds(s: seq<u8>, end: int) returns (k: nat)
    requires !Stalls(s)
    ensures Rounds(Reading(s, end), k) == After(ParseProperty(s), s, end)
  {
    assert ListsActions(s) ==> |s| >= 8 && 4 < Word(s, 2) <= |s| && Word(s, 6) > 0;
    hide *;
    var at := Reading(s, end);
    OneRound(at);
    ReadingRound(s, end);
    k := 1;
    if ListsActions(s) {
      var j := ActionRounds(s[4..], Word(s, 2) - 4, Word(s, 6), Word(s, 2), end - 4);
      RoundsAdd(at, 1, j);
      k := 1 + j;
      ActionProperty(s, end);
    }
  }

  // A list on which every property moves is read to its end.
  lemma {:induction false} ListEnds(s: seq<u8>, end: int) returns (k: nat)
    requires AllMove(s, end)
    ensures Rounds(Reading(s, end), k) == Ended
    decreases |s|
  {
    hide ParseProperty;
    hide Stalls;
    hide Rounds;
    k := PropertyRounds(s, end);
    var r := ParseProperty(s);
    if r.Ok? && r.used < end {
      var j := ListEnds(s[r.used..], end - r.used);
      RoundsAdd(Reading(s, end), k, j);
      k := k + j;
    }
  }

  // One that reaches a property that stalls is never finished.
  lemma {:induction false} ListStays(s: seq<u8>, end: int, k: nat)
    requires !AllMove(s, end)
    ensures Rounds(Reading(s, end), k) != Ended
    decreases |s|
  {
    hide ParseProperty;
    if Stalls(s) {
      StallsAtOnce(s, end, k);
    } else {
      hide Stalls;
      hide Rounds;
      var j := PropertyRounds(s, end);
      var r := ParseProperty(s);
      if j <= k {
        RoundsAdd(Reading(s, end), j, k - j);
        ListStays(s[r.used..], end - r.used, k - j);
      } else if Rounds(Reading(s, end), k) == Ended {
        RoundsAdd(Reading(s, end), k, j - k);
        EndedStays(j - k);
        assert false;
      }
    }
  }

  lemma StallsAtOnce(s: seq<u8>, end: int, k: nat)
    requires Stalls(s)
    ensures Rounds(Reading(s, end), k) != Ended
  {
    hide Word;
    if k > 0 {
      ActionsStay(s[4..], Word(s, 2) - 4, Word(s, 2), end - 4, k - 1);
    }
  }

  // For all bytes: the parser comes to an end exactly when no property that it reaches stalls.
  lemma ParserEndsIff(s: seq<u8>, end: int)
    ensures (exists k: nat :: Rounds(Reading(s, end), k) == Ended) <==> AllMove(s, end)
  {
    hide Rounds;
    hide AllMove;
    if AllMove(s, end) {
      var k := ListEnds(s, end);
    } else {
      forall k: nat
        ensures Rounds(Reading(s, end), k) != Ended
      {
        ListStays(s, end, k);
      }
    }
  }

  // Twelve bytes on which it does not, whatever the end of the list is: a write-actions property
  // with one action of length 0.
  lemma StallingProperty(end: int, k: nat)
    ensures Rounds(Reading([0, 4, 0, 12, 0, 0, 0, 0, 0, 0, 0, 0], end), k) != Ended
  {
    var s: seq<u8> := [0, 4, 0, 12, 0, 0, 0, 0, 0, 0, 0, 0];
    assert Word(s, 0) == 4 && Word(s, 2) == 12 && Word(s, 6) == 0;
    hide Word;
    StallsAtOnce(s, end, k);
  }
}

module PropertyParser {
  import opened Bytes
  import opened Results
  import opened Buffer
  import opened Tlv
  import opened ActionFormat
  import opened ActionParser
  import opened InstructionFormat
  import opened TableFeaturesFormat
  import opened PropertyFormat

  // A buffer whose bytes stay and whose end stays has moved by the distance of its cursor.
  twostate lemma ReadOn(p: Pbuf)
    requires old(p.Readable()) && p.Readable() && p.data == old(p.data)
    requires old(p.getp) <= p.getp && p.getp + p.plen == old(p.getp + p.plen)
    ensures Moved(p, p.getp - old(p.getp))
  {
  }

  lemma {:induction false} ParseIdsStep(s: seq<u8>, byte: int)
    ensures ParseIds(s, byte) ==
      if byte <= 0 then Ok([], 0)
      else if |s| < 1 then Fail(FEATURES_BAD_LEN)
      else Prepend([s[0]], 1, ParseIds(s[1..], byte - 1))
  {}

  // s_prop_next_tables_parse
  method IdsParse(p: Pbuf, byte: nat) returns (r: Parsed<seq<u8>>)
    requires p.Readable()
    modifies p`getp, p`plen
    ensures p.Readable() && r == ParseIds(old(p.Rest()), byte)
    ensures r.Ok? ==> Moved(p, r.used)
  {
    hide ParseIds;
    hide Prepend;
    ghost var s := p.Rest();
    assert |s| == p.plen;
    hide Pbuf.Rest;
    hide Pbuf.Valid;
    var start, ids, read := p.getp, [], 0;
    PrependNothing(ParseIds(s, byte));
    while read < byte
      invariant p.Readable() && start <= p.getp && p.getp + p.plen == start + |s|
      invariant ParseIds(s, byte) == Prepend(ids, p.getp - start, ParseIds(p.Rest(), byte - read))
      decreases p.plen
    {
      ghost var n, rest := p.getp - start, p.Rest();
      ParseIdsStep(rest, byte - read);
      var ret, b := p.Decode(1);
      if ret != OK {
        PrependFail(ids, n, FEATURES_BAD_LEN);
        return Fail(FEATURES_BAD_LEN);
      }
      read := read + 1;
      PrependMany(ids, n, [b[0]], 1, ParseIds(p.Rest(), byte - read));
      ids := ids + [b[0]];
    }
    PrependEnd(ids, p.getp - start);
    ParseIdsStep(p.Rest(), byte - read);
    ReadOn(p);
    return Ok(ids, p.getp - start);
  }

  lemma {:induction false} ParseOxmsStep(s: seq<u8>, byte: int)
    ensures ParseOxms(s, byte) ==
      if byte == 0 then Ok([], 0)
      else if byte < 0 || |s| < 4 then Fail(FEATURES_BAD_LEN)
      else Prepend([Long(s, 0)], 4, ParseOxms(s[4..], byte - 4))
  {}

  // s_table_feature_prop_oxm_parse
  method OxmsParse(p: Pbuf, byte: nat) returns (r: Parsed<seq<u32>>)
    requires p.Readable()
    modifies p`getp, p`plen
    ensures p.Readable() && r == ParseOxms(old(p.Rest()), byte)
    ensures r.Ok? ==> Moved(p, r.used)
  {
    hide ParseOxms;
    hide Prepend;
    ghost var s := p.Rest();
    assert |s| == p.plen;
    hide Pbuf.Rest;
    hide Pbuf.Valid;
    var start, ids, read := p.getp, [], 0;
    PrependNothing(ParseOxms(s, byte));
    while read < byte
      invariant p.Readable() && start <= p.getp && p.getp + p.plen == start + |s|
      invariant ParseOxms(s, byte) == Prepend(ids, p.getp - start, ParseOxms(p.Rest(), byte - read))
      decreases p.plen
    {
      ghost var n, rest := p.getp - start, p.Rest();
      ParseOxmsStep(rest, byte - read);
      var ret, b := p.Decode(4);
      if ret != OK {
        PrependFail(ids, n, FEATURES_BAD_LEN);
        return Fail(FEATURES_BAD_LEN);
      }
      read := read + 4;
      var id := Long(b, 0);
      assert id == Long(rest, 0);
      hide Long;
      PrependMany(ids, n, [id], 4, ParseOxms(p.Rest(), byte - read));
      ids := ids + [id];
    }
    ParseOxmsStep(p.Rest(), byte - read);
    if read != byte {
      PrependFail(ids, p.getp - start, FEATURES_BAD_LEN);
      return Fail(FEATURES_BAD_LEN);
    }
    PrependEnd(ids, p.getp - start);
    ReadOn(p);
    return Ok(ids, p.getp - start);
  }

  // ofp_instruction_header_parse
  method InstTypeParse(p: Pbuf) returns (r: Parsed<u16>)
    requires p.Readable()
    modifies p`getp, p`plen
    ensures p.Readable() && r == ParseInstType(old(p.Rest()))
    ensures r.Ok? ==> Moved(p, r.used)
  {
    hide Word;
    var ret, kind, length := TlvSneak(p);
    if ret != OK || p.plen < length {
      return Fail(BAD_INST_LEN);
    }
    if 1 <= kind <= 6 {
      var b;
      ret, b := p.Decode(4);
      return Ok(kind, 4);
    }
    if kind == OFPIT_EXPERIMENTER {
      return Fail(UNSUP_INST);
    }
    return Fail(UNKNOWN_INST);
  }

  // One more round of the loop: what it adds to the types that are there.
  lemma {:induction false} InstTypesMore(ts: seq<u16>, n: nat, s: seq<u8>, byte: int)
    ensures byte <= 0 ==> Prepend(ts, n, ParseInstTypes(s, byte)) == Ok(ts, n)
    ensures
      var one := ParseInstType(s);
      byte > 0 ==>
        Prepend(ts, n, ParseInstTypes(s, byte)) ==
        if one.Fail? then Fail(one.fault)
        else Prepend(ts + [one.value], n + 4, ParseInstTypes(s[4..], byte - 4))
  {
    hide ParseInstType;
    var one := ParseInstType(s);
    if byte <= 0 {
      assert ts + [] == ts;
    } else if one.Ok? {
      var r := ParseInstTypes(s[4..], byte - 4);
      assert r.Ok? ==> ts + ([one.value] + r.value) == ts + [one.value] + r.value;
    }
  }

  // s_ofp_instruction_header_parse: the result is unset when there is nothing to read.
  method InstTypesParse(p: Pbuf, byte: nat) returns (r: Parsed<seq<u16>>)
    requires p.Readable()
    modifies p`getp, p`plen
    ensures p.Readable()
    ensures r == if byte == 0 then Fail(Unset) else ParseInstTypes(old(p.Rest()), byte)
    ensures r.Ok? ==> Moved(p, r.used)
  {
    hide *;
    if byte == 0 {
      return Fail(Unset);
    }
    r := InstTypesRead(p, byte);
  }

  method InstTypesRead(p: Pbuf, byte: nat) returns (r: Parsed<seq<u16>>)
    requires p.Readable()
    modifies p`getp, p`plen
    ensures p.Readable() && r == ParseInstTypes(old(p.Rest()), byte)
    ensures r.Ok? ==> Moved(p, r.used)
  {
    hide ParseInstTypes;
    hide ParseInstType;
    hide Prepend;
    ghost var s := p.Rest();
    assert |s| == p.plen;
    hide Pbuf.Rest;
    hide Pbuf.Valid;
    var start := p.getp;
    var types: seq<u16> := [];
    var read := 0;
    PrependNothing(ParseInstTypes(s, byte));
    while read < byte
      invariant p.Readable() && start <= p.getp && p.getp + p.plen == start + |s|
      invariant ParseInstTypes(s, byte) == Prepend(types, p.getp - start, ParseInstTypes(p.Rest(), byte - read))
      decreases p.plen
    {
      InstTypesMore(types, p.getp - start, p.Rest(), byte - read);
      var one := InstTypeParse(p);
      if one.Fail? {
        return Fail(one.fault);
      }
      read := read + 4;
      types := types + [one.value];
    }
    InstTypesMore(types, p.getp - start, p.Rest(), byte - read);
    ReadOn(p);
    return Ok(types, p.getp - start);
  }

  // One round of the loop of ofp_action_header_parse, and the length the action declares.
  method HeadParse(p: Pbuf) returns (r: Parsed<(u16, u32)>, length: u16)
    requires p.Readable()
    modifies p`getp, p`plen
    ensures p.Readable() && r == ParseHead(old(p.Rest()))
    ensures r.Ok? ==> Moved(p, r.used) && length == Word(old(p.Rest()), 2)
  {
    hide ActionKnown;
    hide Word;
    ghost var s := p.Rest();
    var ret, kind;
    ret, kind, length := TlvSneak(p);
    if ret != OK || p.plen < length {
      return Fail(BAD_LEN), length;
    }
    if ActionKnown(kind) {
      var b;
      ret, b := p.Decode(8);
      if ret != OK {
        return Fail(BAD_LEN), length;
      }
      assert Long(b, 4) == Long(s, 4) by {
        LongPart(s);
      }
      return Ok((kind, Long(b, 4)), 8), length;
    }
    if kind == OFPAT_EXPERIMENTER {
      return Fail(BAD_EXPERIMENTER), length;
    }
    return Fail(BAD_TYPE), length;
  }

  lemma LongPart(s: seq<u8>)
    requires |s| >= 8
    ensures Long(s[..8], 4) == Long(s, 4)
  {
  }

  lemma {:induction false} HeadsMore(acts: seq<(u16, u32)>, n: nat, s: seq<u8>, length: int)
    ensures length <= 0 ==> Prepend(acts, n, ParseHeads(s, length)) == Ok(acts, n)
    ensures
      var one := ParseHead(s);
      length > 0 ==>
        Prepend(acts, n, ParseHeads(s, length)) ==
        if one.Fail? then Fail(one.fault)
        else Prepend(acts + [one.value], n + 8, ParseHeads(s[8..], length - Word(s, 2)))
  {
    hide ParseHead;
    hide Word;
    var one := ParseHead(s);
    if length <= 0 {
      assert acts + [] == acts;
    } else if one.Ok? {
      var r := ParseHeads(s[8..], length - Word(s, 2));
      assert r.Ok? ==> acts + ([one.value] + r.value) == acts + [one.value] + r.value;
    }
  }

  // ofp_action_header_parse: the pointer moves by the declared lengths, the buffer by eight.
  method HeadsParse(p: Pbuf, length: nat) returns (r: Parsed<seq<(u16, u32)>>)
    requires p.Readable()
    modifies p`getp, p`plen
    ensures p.Readable() && r == ParseHeads(old(p.Rest()), length)
    ensures r.Ok? ==> Moved(p, r.used)
  {
    hide ParseHeads;
    hide ParseHead;
    hide Word;
    hide Prepend;
    ghost var s := p.Rest();
    assert |s| == p.plen;
    hide Pbuf.Rest;
    hide Pbuf.Valid;
    var start, acts, ofpat := p.getp, [], 0;
    PrependNothing(ParseHeads(s, length));
    while ofpat < length
      invariant p.Readable() && start <= p.getp && p.getp + p.plen == start + |s|
      invariant ParseHeads(s, length) == Prepend(acts, p.getp - start, ParseHeads(p.Rest(), length - ofpat))
      decreases p.plen
    {
      ghost var n, rest := p.getp - start, p.Rest();
      HeadsMore(acts, n, rest, length - ofpat);
      var one, len := HeadParse(p);
      if one.Fail? {
        return Fail(one.fault);
      }
      ofpat := ofpat + len;
      acts := acts + [one.value];
    }
    HeadsMore(acts, p.getp - start, p.Rest(), length - ofpat);
    ReadOn(p);
    return Ok(acts, p.getp - start);
  }

  lemma {:induction false} RoundsMore(acts: seq<(u16, u32)>, n: nat, s: seq<u8>, byte: int, step: nat)
    requires step > 0
    ensures byte <= 0 ==> Prepend(acts, n, ParseRounds(s, byte, step)) == Ok(acts, n)
    ensures
      var one := ParseHeads(s, step);
      byte > 0 ==>
        Prepend(acts, n, ParseRounds(s, byte, step)) ==
        if one.Fail? then Fail(one.fault)
        else Prepend(acts + one.value, n + one.used, ParseRounds(s[one.used..], byte - step, step))
  {
    hide ParseHeads;
    var one := ParseHeads(s, step);
    if byte <= 0 {
      assert acts + [] == acts;
    } else if one.Ok? {
      var r := ParseRounds(s[one.used..], byte - step, step);
      assert r.Ok? ==> acts + (one.value + r.value) == acts + one.value + r.value;
    }
  }

  // s_ofp_action_header_parse: the result is unset when there is nothing to read.
  method RoundsParse(p: Pbuf, byte: nat, step: nat) returns (r: Parsed<seq<(u16, u32)>>)
    requires p.Readable() && (byte > 0 ==> step > 0)
    modifies p`getp, p`plen
    ensures p.Readable()
    ensures r == if byte == 0 then Fail(Unset) else ParseRounds(old(p.Rest()), byte, step)
    ensures r.Ok? ==> Moved(p, r.used)
  {
    hide *;
    if byte == 0 {
      return Fail(Unset);
    }
    r := RoundsRead(p, byte, step);
  }

  method RoundsRead(p: Pbuf, byte: nat, step: nat) returns (r: Parsed<seq<(u16, u32)>>)
    requires p.Readable() && step > 0
    modifies p`getp, p`plen
    ensures p.Readable() && r == ParseRounds(old(p.Rest()), byte, step)
    ensures r.Ok? ==> Moved(p, r.used)
  {
    hide ParseRounds;
    hide ParseHeads;
    hide Prepend;
    ghost var s := p.Rest();
    assert |s| == p.plen;
    hide Pbuf.Rest;
    hide Pbuf.Valid;
    var start := p.getp;
    var acts: seq<(u16, u32)> := [];
    var read := 0;
    PrependNothing(ParseRounds(s, byte, step));
    while read < byte
      invariant p.Readable() && start <= p.getp && p.getp + p.plen == start + |s|
      invariant ParseRounds(s, byte, step) == Prepend(acts, p.getp - start, ParseRounds(p.Rest(), byte - read, step))
      decreases p.plen
    {
      RoundsMore(acts, p.getp - start, p.Rest(), byte - read, step);
      var one := HeadsParse(p, step);
      if one.Fail? {
        return Fail(one.fault);
      }
      read := read + step;
      acts := acts + one.value;
    }
    RoundsMore(acts, p.getp - start, p.Rest(), byte - read, step);
    ReadOn(p);
    return Ok(acts, p.getp - start);
  }

  // The switch of s_table_property_parse over the type of a property.
  method UnitsParse(p: Pbuf, kind: u16, byte: nat) returns (r: Parsed<Units>)
    requires p.Readable() && (IsActions(kind) && byte > 0 && p.plen >= 4 ==> Word(p.Rest(), 2) > 0)
    modifies p`getp, p`plen
    ensures p.Readable() && r == ParseUnits(kind, old(p.Rest()), byte)
    ensures r.Ok? ==> Moved(p, r.used)
  {
    hide Word;
    if kind in {0, 1} {
      var l := InstTypesParse(p, byte);
      return match l case Ok(types, n) => Ok(Instructions(types), n) case Fail(f) => Fail(f);
    }
    if kind in {2, 3} {
      var l := IdsParse(p, byte);
      return match l case Ok(ids, n) => Ok(NextTables(ids), n) case Fail(f) => Fail(f);
    }
    if IsActions(kind) {
      var ret, _, step := TlvSneak(p);
      if ret != OK {
        return Fail(FEATURES_BAD_LEN);
      }
      var l := RoundsParse(p, byte, step);
      return match l case Ok(actions, n) => Ok(Actions(actions), n) case Fail(f) => Fail(f);
    }
    if kind in {8, 10, 12, 13, 14, 15} {
      var l := OxmsParse(p, byte);
      return match l case Ok(ids, n) => Ok(OxmIds(ids), n) case Fail(f) => Fail(f);
    }
    return Fail(if kind in {0xfffe, 0xffff} then BAD_EXPERIMENTER else FEATURES_BAD_TYPE);
  }

  lemma HeaderPart(s: seq<u8>)
    requires |s| >= 4
    ensures Word(s[..4], 0) == Word(s, 0) && Word(s[..4], 2) == Word(s, 2)
  {
  }

  lemma PropertyIsParsed(s: seq<u8>)
    requires !Stalls(s)
    ensures |s| < 4 || Word(s, 2) < 4 || |s| < Word(s, 2) ==> ParseProperty(s) == Fail(FEATURES_BAD_LEN)
    ensures |s| >= 4 && 4 <= Word(s, 2) <= |s| ==>
      && (IsActions(Word(s, 0)) && Word(s, 2) - 4 > 0 && |s[4..]| >= 4 ==> Word(s[4..], 2) > 0)
      && var units := ParseUnits(Word(s, 0), s[4..], Word(s, 2) - 4);
      && (units.Fail? ==> ParseProperty(s) == Fail(units.fault))
      && (units.Ok? ==>
            ParseProperty(s) ==
            if |s| - 4 - units.used < Pad(Word(s, 2)) then Fail(FEATURES_BAD_LEN)
            else Ok(Property(Word(s, 0), units.value), 4 + units.used + Pad(Word(s, 2))))
  {
    hide ParseUnits;
    hide Pad;
    assert |s| >= 8 ==> Word(s[4..], 2) == Word(s, 6);
  }

  // One round of s_table_property_parse: a header, the units, the padding.
  method PropertyParse(p: Pbuf) returns (r: Parsed<Property>)
    requires p.Readable() && !Stalls(p.Rest())
    modifies p`getp, p`plen
    ensures p.Readable() && r == ParseProperty(old(p.Rest()))
    ensures r.Ok? ==> Moved(p, r.used)
  {
    hide ParseProperty;
    hide ParseUnits;
    hide IsActions;
    hide Stalls;
    hide Word;
    hide Pad;
    ghost var s := p.Rest();
    assert |s| == p.plen;
    hide Pbuf.Rest;
    hide Pbuf.Valid;
    PropertyIsParsed(s);
    var ret, b := p.Decode(4);
    if ret != OK {
      return Fail(FEATURES_BAD_LEN);
    }
    HeaderPart(s);
    var kind, length := Word(b, 0), Word(b, 2);
    if length < 4 || p.plen < length - 4 {
      return Fail(FEATURES_BAD_LEN);
    }
    var units := UnitsParse(p, kind, length - 4);
    if units.Fail? {
      return Fail(units.fault);
    }
    ret := p.Forward(Pad(length));
    if ret != OK {
      return Fail(FEATURES_BAD_LEN);
    }
    ReadOn(p);
    return Ok(Property(kind, units.value), 4 + units.used + Pad(length));
  }

  lemma {:induction false} PropertiesMore(ps: seq<Property>, n: nat, s: seq<u8>, end: int)
    requires AllMove(s, end)
    ensures
      var one := ParseProperty(s);
      && (one.Fail? ==> Prepend(ps, n, ParseProperties(s, end)) == Fail(one.fault))
      && (one.Ok? && one.used > end ==> Prepend(ps, n, ParseProperties(s, end)) == Fail(FEATURES_BAD_LEN))
      && (one.Ok? && one.used == end ==>
            Prepend(ps, n, ParseProperties(s, end)) == Ok(ps + [one.value], n + one.used))
      && (one.Ok? && one.used < end ==>
            && AllMove(s[one.used..], end - one.used)
            && Prepend(ps, n, ParseProperties(s, end)) ==
               Prepend(ps + [one.value], n + one.used, ParseProperties(s[one.used..], end - one.used)))
  {
    hide ParseProperty;
    hide Stalls;
    var one := ParseProperty(s);
    if one.Ok? && one.used < end {
      var r := ParseProperties(s[one.used..], end - one.used);
      assert r.Ok? ==> ps + ([one.value] + r.value) == ps + [one.value] + r.value;
    }
  }

  // s_table_property_parse: at least one property, until the end the table announces is reached.
  method PropertiesParse(p: Pbuf, end: int) returns (r: Parsed<seq<Property>>)
    requires p.Readable() && AllMove(p.Rest(), end - p.getp)
    modifies p`getp, p`plen
    ensures p.Readable() && r == ParseProperties(old(p.Rest()), end - old(p.getp))
    ensures r.Ok? ==> Moved(p, r.used) && p.getp == end
  {
    hide ParseProperty;
    hide ParseProperties;
    hide Stalls;
    hide Prepend;
    ghost var s, need := p.Rest(), end - p.getp;
    assert |s| == p.plen;
    hide Pbuf.Rest;
    hide Pbuf.Valid;
    var start := p.getp;
    var ps: seq<Property> := [];
    PrependNothing(ParseProperties(s, need));
    while true
      invariant p.Readable() && start <= p.getp && p.getp + p.plen == start + |s|
      invariant AllMove(p.Rest(), end - p.getp)
      invariant ParseProperties(s, need) == Prepend(ps, p.getp - start, ParseProperties(p.Rest(), end - p.getp))
      decreases p.plen
    {
      PropertiesMore(ps, p.getp - start, p.Rest(), end - p.getp);
      var one := PropertyParse(p);
      if one.Fail? {
        return Fail(one.fault);
      }
      ps := ps + [one.value];
      if end <= p.getp {
        break;
      }
    }
    if p.getp != end {
      return Fail(FEATURES_BAD_LEN);
    }
    ReadOn(p);
    return Ok(ps, p.getp - start);
  }
}
