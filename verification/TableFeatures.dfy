// Table features: entries of a fixed part and a list of properties. A property is a header, a
// list of small units and padding that its length does not count.

module TableFeaturesFormat {
  import opened Bytes
  import opened Tlv
  import opened ActionFormat

  // What a property lists: instruction types, table ids, action types with their padding, or
  // OXM ids.
  datatype Units =
    | Instructions(types: seq<u16>)
    | NextTables(ids: seq<u8>)
    | Actions(actions: seq<(u16, u32)>)
    | OxmIds(oxms: seq<u32>)

  datatype Property = Property(kind: u16, units: Units)

  // The part of an entry behind its length.
  datatype Table = Table(fixed: seq<u8>, properties: seq<Property>)

  const TABLE_FEATURES: nat := 64

  predicate InstructionKnown(t: u16)
  {
    1 <= t <= 6 || t == 0xffff
  }

  predicate ActionKnown(t: u16)
  {
    IsFixed(t) || t in {OFPAT_SET_FIELD, OFPAT_ENCAP, OFPAT_DECAP}
  }

  function Count(u: Units): nat
  {
    match u
    case Instructions(types) => |types|
    case NextTables(ids) => |ids|
    case Actions(actions) => |actions|
    case OxmIds(oxms) => |oxms|
  }

  // The encoder knows the type of unit k.
  predicate KnownAt(u: Units, k: nat)
    requires k < Count(u)
  {
    match u
    case Instructions(types) => InstructionKnown(types[k])
    case Actions(actions) => ActionKnown(actions[k].0)
    case _ => true
  }

  predicate UnitsKnown(u: Units)
  {
    forall k :: 0 <= k < Count(u) ==> KnownAt(u, k)
  }

  // Experimenter actions are not modelled: the encoder writes nothing for one.
  predicate NoExperimenter(u: Units)
  {
    u.Actions? ==> forall a :: a in u.actions ==> a.0 != OFPAT_EXPERIMENTER
  }

  // The property types the encoder supports, each with the list it holds.
  predicate Supported(p: Property)
  {
    match p.units
    case Instructions(_) => p.kind in {0, 1}
    case NextTables(_) => p.kind in {2, 3}
    case Actions(_) => p.kind in {4, 5, 6, 7}
    case OxmIds(_) => p.kind in {8, 10, 12, 13, 14, 15}
  }

  // The bytes of the units, one by one.
  function Wire(u: Units): (w: seq<seq<u8>>)
    ensures |w| == Count(u)
  {
    match u
    case Instructions(types) => seq(|types|, i requires 0 <= i < |types| => Put16(types[i]) + Put16(4))
    case NextTables(ids) => seq(|ids|, i requires 0 <= i < |ids| => [ids[i]])
    case Actions(actions) =>
      seq(|actions|, i requires 0 <= i < |actions| => Put16(actions[i].0) + Put16(8) + Put32(actions[i].1))
    case OxmIds(oxms) => seq(|oxms|, i requires 0 <= i < |oxms| => Put32(oxms[i]))
  }

  // A property without its padding.
  function Extent(p: Property): (s: seq<u8>)
    ensures |s| >= 4
  {
    Element(p.kind, Flatten(Wire(p.units)))
  }

  function PropertyBytes(p: Property): seq<u8>
  {
    Extent(p) + Zeros(Pad(|Extent(p)|))
  }

  function PropertiesBytes(ps: seq<Property>): seq<u8>
  {
    if ps == [] then [] else PropertyBytes(ps[0]) + PropertiesBytes(ps[1..])
  }

  function TableBytes(t: Table): seq<u8>
  {
    var properties := PropertiesBytes(t.properties);
    Put16(Field(2 + |t.fixed| + |properties|)) + t.fixed + properties
  }

  // How a receiver finds the properties: each takes its length, and the next one starts at the
  // next multiple of eight.
  function Walk(s: seq<u8>): seq<seq<u8>>
    decreases |s|
  {
    if |s| < 4 then []
    else
      var len: int := Word(s, 2);
      if len < 4 || |s| < len + Pad(len) then []
      else [s[..len]] + Walk(s[len + Pad(len)..])
  }

  function Extents(ps: seq<Property>): seq<seq<u8>>
  {
    if ps == [] then [] else [Extent(ps[0])] + Extents(ps[1..])
  }

  lemma ExtentIsLength(p: Property, rest: seq<u8>)
    requires |Extent(p)| <= 65535
    ensures Word(Extent(p) + rest, 2) == |Extent(p)|
  {
    hide Put16;
    hide Word;
    hide Wire;
    var s := Extent(p) + rest;
    assert s[2..4] == Put16(|Extent(p)|);
    WordAt(s, 2, |Extent(p)|);
  }

  lemma WalkCons(head: seq<u8>, tail: seq<u8>)
    requires |head| >= 4 && Word(head + Zeros(Pad(|head|)) + tail, 2) == |head|
    ensures Walk(head + Zeros(Pad(|head|)) + tail) == [head] + Walk(tail)
  {
    hide Word;
    hide Pad;
    var pad := Zeros(Pad(|head|));
    var s := head + pad + tail;
    assert s[..|head|] == head;
    assert s[|head| + |pad|..] == tail;
  }

  lemma WalkStep(p: Property, tail: seq<u8>)
    requires |Extent(p)| <= 65535
    ensures Walk(PropertyBytes(p) + tail) == [Extent(p)] + Walk(tail)
  {
    var pad := Zeros(Pad(|Extent(p)|));
    assert PropertyBytes(p) + tail == Extent(p) + pad + tail;
    hide *;
    ExtentIsLength(p, pad + tail);
    assert Extent(p) + pad + tail == Extent(p) + (pad + tail);
    WalkCons(Extent(p), tail);
  }

  // The walk visits exactly the properties, in order: every length is its property's extent.
  lemma {:induction false} WalkFindsProperties(ps: seq<Property>)
    requires |PropertiesBytes(ps)| <= 65535
    ensures Walk(PropertiesBytes(ps)) == Extents(ps)
  {
    hide Walk;
    hide Extent;
    hide Pad;
    if ps == [] {
      NoWalk();
    } else {
      WalkStep(ps[0], PropertiesBytes(ps[1..]));
      WalkFindsProperties(ps[1..]);
    }
  }

  lemma NoWalk()
    ensures Walk([]) == []
  {
  }
}

module TableFeaturesCodec {
  import opened Bytes
  import opened Results
  import opened Buffer
  import opened Tlv
  import opened ActionFormat
  import opened ActionEncoder
  import opened TableFeaturesFormat

  lemma FlattenNext(units: seq<seq<u8>>, k: nat)
    requires k < |units|
    ensures Flatten(units[..k + 1]) == Flatten(units[..k]) + units[k]
  {
    assert units[..k + 1] == units[..k] + [units[k]];
    FlattenAppend(units[..k], units[k]);
  }

  lemma {:induction false} FlattenPrefix(units: seq<seq<u8>>, k: nat)
    requires k <= |units|
    ensures |Flatten(units[..k])| <= |Flatten(units)|
  {
    assert units == units[..k] + units[k..];
    FlattenConcat(units[..k], units[k..]);
  }

  // The four list encoders: each unit is written and its size added to the property's length. A
  // unit of unknown type ends the list.
  method UnitsEncode(p: Pbuf, u: Units) returns (ret: Code, total: u16)
    requires CanEncode(p) && NoExperimenter(u)
    modifies p`putp, p`plen, p`data
    ensures CanEncode(p)
    ensures ret == OK <==> UnitsKnown(u) && |Flatten(Wire(u))| <= old(p.plen)
    ensures ret == OK ==> Wrote(p, Flatten(Wire(u))) && total == |Flatten(Wire(u))|
  {
    UnitsAreSmall(u);
    hide Wire;
    hide NoExperimenter;
    hide KnownAt;
    var units := Wire(u);
    ret, total := OK, 0;
    for k := 0 to |units|
      invariant ret == OK && CanEncode(p)
      invariant total == |Flatten(units[..k])| && p.plen + total == old(p.plen)
      invariant p.Written() == old(p.Written()) + Flatten(units[..k])
      invariant forall j :: 0 <= j < k ==> KnownAt(u, j)
    {
      if !KnownAt(u, k) {
        return OUT_OF_RANGE, total;
      }
      FlattenNext(units, k);
      FlattenPrefix(units, k + 1);
      ret := p.Encode(units[k]);
      if ret != OK {
        return;
      }
      assert p.Written() == old(p.Written()) + Flatten(units[..k + 1]);
      ret, total := LengthSum(total, |units[k]|);
    }
    assert units[..|units|] == units;
  }

  // A property that the encoder can write, if there is room.
  predicate Writable(p: Property)
  {
    Supported(p) && UnitsKnown(p.units)
  }

  // Header and units, with the length of both. The addition of the header's four bytes is
  // unchecked and cannot wrap, since the bytes are in the buffer.
  method ExtentEncode(p: Pbuf, property: Property, length: u16) returns (ret: Code, len: u16)
    requires CanEncode(p) && NoExperimenter(property.units)
    modifies p`putp, p`plen, p`data
    ensures CanEncode(p)
    ensures ret == OK <==> Writable(property) && |Extent(property)| <= old(p.plen)
    ensures ret == OK ==> Wrote(p, Extent(property)) && len == |Extent(property)|
  {
    hide Put16;
    hide Supported;
    hide UnitsKnown;
    hide NoExperimenter;
    hide Flatten;
    hide Wire;
    hide Overwrite;
    ghost var before, body := p.Written(), Flatten(Wire(property.units));
    assert Extent(property) == Element(property.kind, body);
    hide Extent;
    hide Element;
    var at := p.putp;
    len := 0;
    ret := p.Encode(Put16(property.kind) + Put16(length));
    if ret != OK {
      return;
    }
    if !Supported(property) {
      ret := UNSUPPORTED;
      return;
    }
    ret, len := UnitsEncode(p, property.units);
    if ret != OK {
      return;
    }
    len := (len + 4) % 0x1_0000;
    assert p.Written() == before + (Put16(property.kind) + Put16(length) + body);
    LengthSet(p, at + 2, len);
    PatchElement(before, property.kind, body, length);
  }

  // One round of the loop below.
  method PropertyEncode(p: Pbuf, property: Property, length: u16) returns (ret: Code, len: u16)
    requires CanEncode(p) && NoExperimenter(property.units)
    modifies p`putp, p`plen, p`data
    ensures CanEncode(p)
    ensures ret == OK <==> Writable(property) && |PropertyBytes(property)| <= old(p.plen)
    ensures ret == OK ==> Wrote(p, PropertyBytes(property)) && len == |PropertyBytes(property)|
  {
    hide Extent;
    hide Pad;
    hide Writable;
    hide NoExperimenter;
    ret, len := ExtentEncode(p, property, length);
    if ret == OK {
      ret, len := PaddingEncode(p, len);
      if ret == OK {
        assert p.Written() == old(p.Written()) + PropertyBytes(property);
      }
    }
  }

  lemma UnitsAreSmall(u: Units)
    ensures forall i :: 0 <= i < |Wire(u)| ==> |Wire(u)[i]| <= 8
  {
  }

  lemma {:induction false} PropertiesSplit(ps: seq<Property>, k: nat)
    requires k <= |ps|
    ensures PropertiesBytes(ps) == PropertiesBytes(ps[..k]) + PropertiesBytes(ps[k..])
  {
    hide PropertyBytes;
    if k == 0 {
      assert ps[..0] == [] && ps[0..] == ps;
    } else {
      PropertiesSplit(ps[1..], k - 1);
      assert ps[..k][1..] == ps[1..][..k - 1] && ps[1..][k - 1..] == ps[k..];
    }
  }

  lemma PropertiesNext(ps: seq<Property>, k: nat)
    requires k < |ps|
    ensures PropertiesBytes(ps[..k + 1]) == PropertiesBytes(ps[..k]) + PropertyBytes(ps[k])
    ensures |PropertiesBytes(ps[..k + 1])| <= |PropertiesBytes(ps)|
  {
    hide PropertyBytes;
    PropertiesSplit(ps[..k + 1], k);
    PropertiesSplit(ps, k + 1);
    assert ps[..k + 1][..k] == ps[..k] && ps[..k + 1][k..] == [ps[k]];
    assert PropertiesBytes([ps[k]]) == PropertyBytes(ps[k]) + PropertiesBytes([ps[k]][1..]);
  }

  ghost predicate AllWritable(ps: seq<Property>)
  {
    forall i :: 0 <= i < |ps| ==> Writable(ps[i])
  }

  // s_table_property_list_encode: success, the total and the bytes written all agree.
  method PropertyListEncode(p: Pbuf, ps: seq<Property>) returns (ret: Code, total: u16)
    requires CanEncode(p) && forall i :: 0 <= i < |ps| ==> NoExperimenter(ps[i].units)
    modifies p`putp, p`plen, p`data
    ensures CanEncode(p)
    ensures ret == OK <==> AllWritable(ps) && |PropertiesBytes(ps)| <= old(p.plen)
    ensures ret == OK ==> Wrote(p, PropertiesBytes(ps)) && total == |PropertiesBytes(ps)|
  {
    hide PropertyBytes;
    hide NoExperimenter;
    hide Writable;
    ret, total := OK, 0;
    for k := 0 to |ps|
      invariant ret == OK && CanEncode(p) && AllWritable(ps[..k])
      invariant total == |PropertiesBytes(ps[..k])| && p.plen + total == old(p.plen)
      invariant p.Written() == old(p.Written()) + PropertiesBytes(ps[..k])
    {
      PropertiesNext(ps, k);
      var len;
      // The length in the structure is whatever it was before; 0 stands for it.
      ret, len := PropertyEncode(p, ps[k], 0);
      if ret != OK {
        return;
      }
      assert p.Written() == old(p.Written()) + PropertiesBytes(ps[..k + 1]);
      ret, total := LengthSum(total, len);
    }
    assert ps[..|ps|] == ps;
  }

  // The entry of table_features_reply_create: its unchecked last addition never wraps.
  method TableEncode(p: Pbuf, t: Table) returns (ret: Code)
    requires CanEncode(p) && |t.fixed| == TABLE_FEATURES - 2
    requires forall i :: 0 <= i < |t.properties| ==> NoExperimenter(t.properties[i].units)
    modifies p`putp, p`plen, p`data
    ensures CanEncode(p)
    ensures ret == OK <==> AllWritable(t.properties) && |TableBytes(t)| <= old(p.plen)
    ensures ret == OK ==> Wrote(p, TableBytes(t))
  {
    hide Put16;
    hide PropertiesBytes;
    hide NoExperimenter;
    hide Writable;
    ghost var before, properties := p.Written(), PropertiesBytes(t.properties);
    var at := p.putp;
    ret := p.Encode(Put16(0) + t.fixed);
    if ret != OK {
      return;
    }
    var total;
    ret, total := PropertyListEncode(p, t.properties);
    if ret != OK {
      return;
    }
    assert p.Written() == before + (Put16(0) + (t.fixed + properties));
    var length: u16 := (total + TABLE_FEATURES) % 0x1_0000;
    LengthSet(p, at, length);
    PatchFront(before, 0, t.fixed + properties, length);
    assert TableBytes(t) == Put16(length) + (t.fixed + properties);
  }
}
