// Flow matches: OXM fields that must tile the declared length exactly, kept sorted by field
// type in the order of arrival.

// Sorting by field type: what the insertion loop computes, and what it has to compute.
module FieldSort {
  import opened Bytes
  import opened Oxm

  datatype OxmField = OxmField(oxmClass: u16, field: u8, value: seq<u8>)

  function TypeOf(f: OxmField): u8
  {
    FieldType(f.field)
  }

  // A field goes in front of the first one with a larger type.
  function Insert(list: seq<OxmField>, f: OxmField): seq<OxmField>
  {
    if list == [] then [f]
    else if TypeOf(f) < TypeOf(list[0]) then [f] + list
    else [list[0]] + Insert(list[1..], f)
  }

  function InsertAll(list: seq<OxmField>, wire: seq<OxmField>): seq<OxmField>
    decreases |wire|
  {
    if wire == [] then list else InsertAll(Insert(list, wire[0]), wire[1..])
  }

  predicate Sorted(list: seq<OxmField>)
  {
    forall i, j :: 0 <= i < j < |list| ==> TypeOf(list[i]) <= TypeOf(list[j])
  }

  // The fields of one type, in order.
  function OfType(list: seq<OxmField>, t: u8): seq<OxmField>
  {
    if list == [] then [] else IfType(list[0], t) + OfType(list[1..], t)
  }

  function IfType(f: OxmField, t: u8): seq<OxmField>
  {
    if TypeOf(f) == t then [f] else []
  }

  // a is b stably sorted: in order of type, and with the same fields of every type in the
  // same order.
  ghost predicate StableSortOf(a: seq<OxmField>, b: seq<OxmField>)
  {
    Sorted(a) && forall t: u8 :: OfType(a, t) == OfType(b, t)
  }

  lemma {:induction false} OfTypeConcat(a: seq<OxmField>, b: seq<OxmField>, t: u8)
    ensures OfType(a + b, t) == OfType(a, t) + OfType(b, t)
  {
    hide IfType;
    if a == [] {
      assert a + b == b;
    } else {
      assert (a + b)[0] == a[0] && (a + b)[1..] == a[1..] + b;
      OfTypeConcat(a[1..], b, t);
    }
  }

  // No field of a sorted list has a type below the first one's.
  lemma {:induction false} OfSmallerType(list: seq<OxmField>, t: u8)
    requires forall i :: 0 <= i < |list| ==> t < TypeOf(list[i])
    ensures OfType(list, t) == []
  {
    if list != [] {
      OfSmallerType(list[1..], t);
    }
  }

  lemma {:induction false} InsertSorted(list: seq<OxmField>, f: OxmField)
    requires Sorted(list)
    ensures Sorted(Insert(list, f))
    ensures forall x :: x in Insert(list, f) <==> x == f || x in list
  {
    if list != [] && TypeOf(list[0]) <= TypeOf(f) {
      InsertSorted(list[1..], f);
      var tail := Insert(list[1..], f);
      assert list == [list[0]] + list[1..];
      forall i | 0 <= i < |tail|
        ensures TypeOf(list[0]) <= TypeOf(tail[i])
      {
        assert tail[i] in tail;
      }
    } else if list != [] {
      assert list == [list[0]] + list[1..];
    }
  }

  lemma OneOfType(f: OxmField, t: u8)
    ensures OfType([f], t) == IfType(f, t)
  {
  }

  lemma PutInFront(list: seq<OxmField>, f: OxmField, t: u8)
    requires forall i :: 0 <= i < |list| ==> TypeOf(f) < TypeOf(list[i])
    ensures OfType([f] + list, t) == OfType(list + [f], t)
  {
    OfTypeConcat([f], list, t);
    OfTypeConcat(list, [f], t);
    OneOfType(f, t);
    if TypeOf(f) == t {
      OfSmallerType(list, t);
    }
    hide OfType;
  }

  // Inserting puts a field behind those of its type and leaves the other types alone.
  lemma {:induction false} InsertStable(list: seq<OxmField>, f: OxmField, t: u8)
    requires Sorted(list)
    ensures OfType(Insert(list, f), t) == OfType(list + [f], t)
  {
    hide OfType;
    hide TypeOf;
    if list == [] {
      assert list + [f] == [f];
    } else if TypeOf(f) < TypeOf(list[0]) {
      PutInFront(list, f, t);
    } else {
      InsertStable(list[1..], f, t);
      OfTypeConcat([list[0]], Insert(list[1..], f), t);
      OfTypeConcat([list[0]], list[1..] + [f], t);
      assert list + [f] == [list[0]] + (list[1..] + [f]);
    }
  }

  lemma InsertKeepsTypes(list: seq<OxmField>, wire: seq<OxmField>, t: u8)
    requires Sorted(list) && wire != []
    ensures OfType(Insert(list, wire[0]) + wire[1..], t) == OfType(list + wire, t)
  {
    InsertStable(list, wire[0], t);
    hide Insert;
    hide OfType;
    OfTypeConcat(Insert(list, wire[0]), wire[1..], t);
    OfTypeConcat(list + [wire[0]], wire[1..], t);
    assert list + [wire[0]] + wire[1..] == list + wire;
  }

  // The insertion loop is a stable sort.
  lemma {:induction false} InsertAllSorts(list: seq<OxmField>, wire: seq<OxmField>)
    requires Sorted(list)
    ensures StableSortOf(InsertAll(list, wire), list + wire)
    decreases |wire|
  {
    if wire == [] {
      assert list + wire == list;
    } else {
      var mid := Insert(list, wire[0]);
      InsertSorted(list, wire[0]);
      InsertAllSorts(mid, wire[1..]);
      hide Insert;
      hide OfType;
      hide Sorted;
      forall t: u8
        ensures OfType(InsertAll(list, wire), t) == OfType(list + wire, t)
      {
        InsertKeepsTypes(list, wire, t);
      }
    }
  }

  // There is only one stable sort.
  lemma {:induction false} StableSortUnique(a: seq<OxmField>, b: seq<OxmField>)
    requires Sorted(a) && StableSortOf(b, a)
    ensures a == b
  {
    if a == [] {
      assert b != [] ==> OfType(b, TypeOf(b[0])) == OfType(a, TypeOf(b[0]));
    } else {
      assert OfType(b, TypeOf(a[0])) == OfType(a, TypeOf(a[0])) != [];
      if b != [] {
        assert OfType(b, TypeOf(b[0])) == OfType(a, TypeOf(b[0])) != [];
        if TypeOf(b[0]) < TypeOf(a[0]) {
          OfSmallerType(a, TypeOf(b[0]));
        } else if TypeOf(a[0]) < TypeOf(b[0]) {
          OfSmallerType(b, TypeOf(a[0]));
        }
        assert TypeOf(a[0]) == TypeOf(b[0]);
        assert a[0] == OfType(a, TypeOf(a[0]))[0] == OfType(b, TypeOf(a[0]))[0] == b[0];
        forall t: u8
          ensures OfType(b[1..], t) == OfType(a[1..], t)
        {
          var first := if TypeOf(a[0]) == t then [a[0]] else [];
          assert first + OfType(b[1..], t) == OfType(b, t) == OfType(a, t) == first + OfType(a[1..], t);
          assert OfType(b[1..], t) == OfType(b, t)[|first|..];
          assert OfType(a[1..], t) == OfType(a, t)[|first|..];
        }
        StableSortUnique(a[1..], b[1..]);
        assert a == [a[0]] + a[1..] && b == [b[0]] + b[1..];
      }
    }
  }

  // A sorted list is left as it is.
  lemma SortedIsFixed(list: seq<OxmField>)
    requires Sorted(list)
    ensures InsertAll([], list) == list
  {
    InsertAllSorts([], list);
    assert [] + list == list;
    StableSortUnique(list, InsertAll([], list));
  }
}

module MatchFormat {
  import opened Bytes
  import opened Tlv
  import opened Oxm
  import opened ActionFormat
  import opened FieldSort

  const OFPET_BAD_MATCH: u16 := 4
  const BAD_MATCH_TYPE := Ofp(OFPET_BAD_MATCH, 0)
  const BAD_MATCH_LEN := Ofp(OFPET_BAD_MATCH, 1)
  const BAD_MATCH_FIELD := Ofp(OFPET_BAD_MATCH, 6)
  const OFPMT_OXM: u16 := 1

  predicate FieldOk(f: OxmField)
  {
    f.oxmClass == OFPXMC_OPENFLOW_BASIC && FieldKnown(f.field) && |f.value| <= 255
  }

  predicate FieldsOk(fs: seq<OxmField>)
  {
    forall f :: f in fs ==> FieldOk(f)
  }

  function FieldBytes(f: OxmField): (s: seq<u8>)
    ensures |s| == 4 + |f.value|
  {
    Put16(f.oxmClass) + [f.field, |f.value| % 0x100] + f.value
  }

  function FieldsBytes(fs: seq<OxmField>): seq<u8>
  {
    if fs == [] then [] else FieldBytes(fs[0]) + FieldsBytes(fs[1..])
  }

  // A match on the wire: the length does not count the padding.
  function MatchBytes(fs: seq<OxmField>): seq<u8>
  {
    Element(OFPMT_OXM, FieldsBytes(fs)) + Zeros(Pad(4 + |FieldsBytes(fs)|))
  }

  // The OXM loop of ofp_match_parse, between positions pos and end of the bytes that start
  // at the match. It reads a header of four bytes wherever it stands before end, so the
  // last one may reach past end; the length check then fails.
  function ParseFields(mem: seq<u8>, pos: nat, end: nat, list: seq<OxmField>): Parsed<seq<OxmField>>
    decreases end - pos
  {
    if pos >= end then
      if pos == end then Ok(list, pos) else Fail(BAD_MATCH_LEN)
    else if pos + 4 > |mem| then Fail(BAD_MATCH_LEN)
    else if Word(mem, pos) != OFPXMC_OPENFLOW_BASIC then Fail(BAD_MATCH_TYPE)
    else if !FieldKnown(mem[pos + 2]) then Fail(BAD_MATCH_FIELD)
    else
      var next: nat := pos + 4 + mem[pos + 3];
      if next > end || next > |mem| then Fail(BAD_MATCH_LEN)
      else
        var f := OxmField(Word(mem, pos), mem[pos + 2], mem[pos + 4..next]);
        ParseFields(mem, next, end, Insert(list, f))
  }

  // ofp_match_parse into an empty list. mem is the buffer from the match on, plen of its
  // bytes are the message's; strict says that the channel speaks version 1.3 or later.
  function ParseMatch(mem: seq<u8>, plen: nat, strict: bool): Parsed<seq<OxmField>>
    requires plen <= |mem|
  {
    if plen < 4 then Fail(BAD_MATCH_LEN)
    else
      var length: nat := Word(mem, 2);
      if strict && Word(mem, 0) != OFPMT_OXM then Fail(BAD_MATCH_TYPE)
      else if plen < length + Pad(length) then Fail(BAD_MATCH_LEN)
      else if length == 4 then Ok([], 8)
      else match ParseFields(mem, 4, length, [])
        case Fail(f) => Fail(f)
        case Ok(fs, _) => Ok(fs, length + Pad(length))
  }

  // What stands between two positions of a buffer.
  ghost predicate Tiled(mem: seq<u8>, pos: nat, end: nat, wire: seq<OxmField>)
  {
    pos <= end <= |mem| && mem[pos..end] == FieldsBytes(wire) && FieldsOk(wire)
  }

  lemma FieldAt(mem: seq<u8>, pos: nat, end: nat, f: OxmField, rest: seq<OxmField>)
    requires Tiled(mem, pos, end, [f] + rest)
    ensures pos + 4 + |f.value| <= end
    ensures Word(mem, pos) == f.oxmClass && mem[pos + 2] == f.field && mem[pos + 3] == |f.value|
    ensures mem[pos + 4..pos + 4 + |f.value|] == f.value
    ensures Tiled(mem, pos + 4 + |f.value|, end, rest)
  {
    var b := mem[pos..end];
    assert ([f] + rest)[1..] == rest && f in [f] + rest;
    assert b == FieldBytes(f) + FieldsBytes(rest);
    hide FieldsBytes;
    SliceOfSlice(mem, pos, end, 0, 2);
    SliceOfSlice(mem, pos, end, 4, 4 + |f.value|);
    SliceOfSlice(mem, pos, end, 4 + |f.value|, end - pos);
    assert b[0..2] == Put16(f.oxmClass);
    WordAt(mem, pos, f.oxmClass);
    assert mem[pos + 2] == b[2] && mem[pos + 3] == b[3];
    assert b[4..4 + |f.value|] == f.value && b[4 + |f.value|..end - pos] == FieldsBytes(rest);
    assert FieldsOk(rest) by {
      assert forall g :: g in rest ==> g in [f] + rest;
    }
  }

  lemma ParseFieldsStep(mem: seq<u8>, pos: nat, end: nat, f: OxmField, list: seq<OxmField>)
    requires pos + 4 + |f.value| <= end <= |mem| && FieldOk(f)
    requires Word(mem, pos) == f.oxmClass && mem[pos + 2] == f.field && mem[pos + 3] == |f.value|
    requires mem[pos + 4..pos + 4 + |f.value|] == f.value
    ensures ParseFields(mem, pos, end, list) == ParseFields(mem, pos + 4 + |f.value|, end, Insert(list, f))
  {
    hide Word;
    hide Insert;
  }

  // Fields that tile the range are parsed, sorted in.
  lemma {:induction false} TiledParses(mem: seq<u8>, pos: nat, end: nat, list: seq<OxmField>, wire: seq<OxmField>)
    requires Tiled(mem, pos, end, wire)
    ensures ParseFields(mem, pos, end, list) == Ok(InsertAll(list, wire), end)
    decreases |wire|
  {
    if wire != [] {
      var f := wire[0];
      assert wire == [f] + wire[1..];
      FieldAt(mem, pos, end, f, wire[1..]);
      assert FieldOk(f);
      hide Word;
      hide FieldsBytes;
      hide Insert;
      hide Tiled;
      ParseFieldsStep(mem, pos, end, f, list);
      hide ParseFields;
      TiledParses(mem, pos + 4 + |f.value|, end, Insert(list, f), wire[1..]);
    }
  }

  // Whatever is parsed was tiled.
  lemma {:induction false} ParsedWasTiled(mem: seq<u8>, pos: nat, end: nat, list: seq<OxmField>)
    returns (wire: seq<OxmField>)
    requires end <= |mem| && ParseFields(mem, pos, end, list).Ok?
    ensures Tiled(mem, pos, end, wire)
    ensures ParseFields(mem, pos, end, list).value == InsertAll(list, wire)
    decreases end - pos
  {
    if pos == end {
      wire := [];
    } else {
      var next: nat := pos + 4 + mem[pos + 3];
      var f := OxmField(Word(mem, pos), mem[pos + 2], mem[pos + 4..next]);
      var rest := ParsedWasTiled(mem, next, end, Insert(list, f));
      wire := [f] + rest;
      assert wire[1..] == rest;
      FieldBytesAt(mem, pos, f);
      assert mem[pos..end] == mem[pos..next] + mem[next..end];
    }
  }

  lemma FieldBytesAt(mem: seq<u8>, pos: nat, f: OxmField)
    requires pos + 4 + |f.value| <= |mem| && |f.value| <= 255
    requires Word(mem, pos) == f.oxmClass && mem[pos + 2] == f.field && mem[pos + 3] == |f.value|
    requires mem[pos + 4..pos + 4 + |f.value|] == f.value
    ensures mem[pos..pos + 4 + |f.value|] == FieldBytes(f)
  {
    PutWord(mem[pos..pos + 2]);
    assert Word(mem, pos) == Word(mem[pos..pos + 2], 0);
    hide Put16;
    hide Word;
    assert mem[pos..pos + 4 + |f.value|]
        == mem[pos..pos + 2] + [mem[pos + 2], mem[pos + 3]] + mem[pos + 4..pos + 4 + |f.value|];
  }

  // What a match has to look like to be accepted.
  ghost predicate WellFormed(mem: seq<u8>, plen: nat, strict: bool, wire: seq<OxmField>)
  {
    && 4 <= plen <= |mem|
    && (strict ==> Word(mem, 0) == OFPMT_OXM)
    && var length: nat := Word(mem, 2);
       4 <= length && length + Pad(length) <= plen && Tiled(mem, 4, length, wire)
  }

  // The main property of the parser: it accepts exactly the matches whose fields tile the
  // declared length, and returns them stably sorted by field type.
  lemma MatchParseIsExact(mem: seq<u8>, plen: nat, strict: bool)
    requires plen <= |mem|
    ensures ParseMatch(mem, plen, strict).Ok? <==> exists wire :: WellFormed(mem, plen, strict, wire)
    ensures forall wire :: WellFormed(mem, plen, strict, wire) ==>
      var r := ParseMatch(mem, plen, strict);
      r.used == Word(mem, 2) + Pad(Word(mem, 2)) && StableSortOf(r.value, wire)
  {
    hide Word;
    if ParseMatch(mem, plen, strict).Ok? {
      var length: nat := Word(mem, 2);
      if length == 4 {
        assert WellFormed(mem, plen, strict, []);
      } else {
        var wire := ParsedWasTiled(mem, 4, length, []);
        assert WellFormed(mem, plen, strict, wire);
      }
    }
    forall wire | WellFormed(mem, plen, strict, wire)
      ensures
        var r := ParseMatch(mem, plen, strict);
        r.Ok? && r.used == Word(mem, 2) + Pad(Word(mem, 2)) && StableSortOf(r.value, wire)
    {
      AcceptWellFormed(mem, plen, strict, wire);
    }
  }

  lemma AcceptWellFormed(mem: seq<u8>, plen: nat, strict: bool, wire: seq<OxmField>)
    requires WellFormed(mem, plen, strict, wire)
    ensures
      var r := ParseMatch(mem, plen, strict);
      && r == Ok(InsertAll([], wire), Word(mem, 2) + Pad(Word(mem, 2)))
      && StableSortOf(r.value, wire)
  {
    hide Word;
    var length: nat := Word(mem, 2);
    TiledParses(mem, 4, length, [], wire);
    InsertAllSorts([], wire);
    assert [] + wire == wire;
  }

  // Parsing an encoded sorted match gives it back, the empty match included.
  lemma MatchRoundTrip(fs: seq<OxmField>, rest: seq<u8>, plen: nat, strict: bool)
    requires FieldsOk(fs) && Sorted(fs) && 4 + |FieldsBytes(fs)| <= 65535
    requires |MatchBytes(fs)| <= plen <= |MatchBytes(fs)| + |rest|
    ensures ParseMatch(MatchBytes(fs) + rest, plen, strict) == Ok(fs, |MatchBytes(fs)|)
  {
    hide Word;
    var b := FieldsBytes(fs);
    var pad := Zeros(Pad(4 + |b|));
    var mem := MatchBytes(fs) + rest;
    assert mem == Element(OFPMT_OXM, b) + (pad + rest);
    ElementHead(OFPMT_OXM, b, pad + rest);
    SliceOfSlice(mem, 4, |mem|, 0, |b|);
    assert mem[4..|mem|][0..|b|] == (b + (pad + rest))[0..|b|] == b;
    assert Tiled(mem, 4, 4 + |b|, fs);
    AcceptWellFormed(mem, plen, strict, fs);
    SortedIsFixed(fs);
  }
}

module MatchCodec {
  import opened Bytes
  import opened Results
  import opened Buffer
  import opened Tlv
  import opened Oxm
  import opened ActionFormat
  import opened ActionParser
  import opened ActionEncoder
  import opened FieldSort
  import opened MatchFormat

  // The list walk of ofp_match_parse that finds where a field goes.
  method InsertField(list: seq<OxmField>, f: OxmField) returns (r: seq<OxmField>)
    ensures r == Insert(list, f)
  {
    hide TypeOf;
    var i := 0;
    while i < |list| && !(TypeOf(f) < TypeOf(list[i]))
      invariant 0 <= i <= |list|
      invariant Insert(list, f) == list[..i] + Insert(list[i..], f)
    {
      assert list[i..][1..] == list[i + 1..];
      assert list[..i + 1] == list[..i] + [list[i]];
      i := i + 1;
    }
    r := list[..i] + [f] + list[i..];
  }

  // ofp_match_parse. list starts empty, as every caller leaves it.
  method MatchParse(p: Pbuf, strict: bool) returns (r: Parsed<seq<OxmField>>)
    requires p.Readable()
    modifies p`getp, p`plen
    ensures p.Readable() && r == ParseMatch(old(p.data[p.getp..]), old(p.plen), strict)
    ensures r.Ok? ==> Moved(p, r.used)
  {
    hide Insert;
    ghost var mem, s := p.data[p.getp..], p.Rest();
    var ret, kind, length := TlvSneak(p);
    if ret != OK {
      return Fail(BAD_MATCH_LEN);
    }
    assert forall i :: 0 <= i < 4 ==> s[i] == mem[i];
    assert kind == Word(mem, 0) && length == Word(mem, 2);
    if strict && kind != OFPMT_OXM {
      return Fail(BAD_MATCH_TYPE);
    }
    var total := length + Pad(length);
    if p.plen < total {
      return Fail(BAD_MATCH_LEN);
    }
    if length == 4 {
      ret := p.Forward(total);
      return Ok([], total);
    }
    var list := FieldsParse(p, length);
    if list.Fail? {
      return Fail(list.fault);
    }
    ret := p.Forward(total);
    return Ok(list.value, total);
  }

  // The OXM loop: it walks the bytes behind the match header with a pointer of its own.
  method FieldsParse(p: Pbuf, length: u16) returns (r: Parsed<seq<OxmField>>)
    requires p.Readable() && length <= p.plen
    ensures r == ParseFields(p.data[p.getp..], 4, length, [])
  {
    hide Insert;
    hide Word;
    var mem := p.data[p.getp..];
    var oxm: nat, end: nat := 4, length;
    var list: seq<OxmField> := [];
    while oxm < end
      invariant ParseFields(mem, 4, length, []) == ParseFields(mem, oxm, end, list)
      decreases end - oxm
    {
      if oxm + 4 > |mem| {
        return Fail(BAD_MATCH_LEN);
      }
      var oxmClass, field, oxmLength := Word(mem, oxm), mem[oxm + 2], mem[oxm + 3];
      if oxmClass != OFPXMC_OPENFLOW_BASIC {
        return Fail(BAD_MATCH_TYPE);
      }
      if !FieldKnown(field) {
        return Fail(BAD_MATCH_FIELD);
      }
      if oxm + 4 + oxmLength > end {
        return Fail(BAD_MATCH_LEN);
      }
      list := InsertField(list, OxmField(oxmClass, field, mem[oxm + 4..oxm + 4 + oxmLength]));
      oxm := oxm + 4 + oxmLength;
    }
    r := if oxm == end then Ok(list, length) else Fail(BAD_MATCH_LEN);
  }

  lemma {:induction false} FieldsSplit(fs: seq<OxmField>, k: nat)
    requires k <= |fs|
    ensures FieldsBytes(fs) == FieldsBytes(fs[..k]) + FieldsBytes(fs[k..])
  {
    hide FieldBytes;
    if k == 0 {
      assert fs[..0] == [] && fs[0..] == fs;
    } else {
      FieldsSplit(fs[1..], k - 1);
      assert fs[..k][1..] == fs[1..][..k - 1] && fs[1..][k - 1..] == fs[k..];
    }
  }

  lemma FieldsNext(fs: seq<OxmField>, k: nat)
    requires k < |fs|
    ensures FieldsBytes(fs[..k + 1]) == FieldsBytes(fs[..k]) + FieldBytes(fs[k])
    ensures |FieldsBytes(fs[..k + 1])| <= |FieldsBytes(fs)|
  {
    hide FieldBytes;
    FieldsSplit(fs[..k + 1], k);
    FieldsSplit(fs, k + 1);
    assert fs[..k + 1][..k] == fs[..k] && fs[..k + 1][k..] == [fs[k]];
    assert FieldsBytes([fs[k]]) == FieldBytes(fs[k]) + FieldsBytes([fs[k]][1..]);
  }

  // One round of the loop of ofp_match_list_encode: header, value, and both lengths.
  method FieldEncode(p: Pbuf, f: OxmField, total: u16) returns (ret: Code, sum: u16)
    requires CanEncode(p) && FieldOk(f) && total + p.plen <= 65535
    modifies p`putp, p`plen, p`data
    ensures Encoded(p, ret, FieldBytes(f)) && (ret == OK ==> sum == total + |FieldBytes(f)|)
  {
    hide Put16;
    sum := total;
    var len: u8 := |f.value|;
    var head := Put16(f.oxmClass) + [f.field, len];
    ret := p.Encode(head);
    if ret == OK {
      ret := p.Encode(f.value);
      if ret == OK {
        assert p.Written() == old(p.Written()) + (head + f.value);
        ret, sum := LengthSum(total, 4);
        ret, sum := LengthSum(sum, len);
      }
    }
  }

  // The field loop of ofp_match_list_encode.
  method FieldsEncode(p: Pbuf, fs: seq<OxmField>, length: u16) returns (ret: Code, total: u16)
    requires CanEncode(p) && FieldsOk(fs) && length + p.plen <= 65535
    modifies p`putp, p`plen, p`data
    ensures Encoded(p, ret, FieldsBytes(fs)) && (ret == OK ==> total == length + |FieldsBytes(fs)|)
  {
    hide FieldBytes;
    hide FieldOk;
    ret, total := OK, length;
    for k := 0 to |fs|
      invariant ret == OK && CanEncode(p)
      invariant total == length + |FieldsBytes(fs[..k])| && p.plen + total == old(p.plen) + length
      invariant p.Written() == old(p.Written()) + FieldsBytes(fs[..k])
    {
      FieldsNext(fs, k);
      ret, total := FieldEncode(p, fs[k], total);
      if ret != OK {
        return;
      }
      assert p.Written() == old(p.Written()) + FieldsBytes(fs[..k + 1]);
    }
    assert fs[..|fs|] == fs;
  }

  // ofp_match_list_encode: the length field is set before the padding, the total after it.
  method MatchListEncode(p: Pbuf, fs: seq<OxmField>) returns (ret: Code, total: u16)
    requires CanEncode(p) && FieldsOk(fs)
    modifies p`putp, p`plen, p`data
    ensures Encoded(p, ret, MatchBytes(fs)) && (ret == OK ==> total == |MatchBytes(fs)|)
  {
    hide Put16;
    hide FieldsBytes;
    ghost var before, body := p.Written(), FieldsBytes(fs);
    var at := p.putp;
    total := 4;
    ret := p.Encode(Put16(OFPMT_OXM) + Put16(0));
    if ret != OK {
      return;
    }
    ret, total := FieldsEncode(p, fs, total);
    if ret != OK {
      return;
    }
    assert p.Written() == before + (Put16(OFPMT_OXM) + Put16(0) + body);
    LengthSet(p, at + 2, total);
    PatchElement(before, OFPMT_OXM, body, 0);
    hide Element;
    hide Pad;
    ghost var length := total;
    ret, total := PaddingEncode(p, total);
    if ret == OK {
      assert p.Written() == before + (Element(OFPMT_OXM, body) + Zeros(Pad(length)));
    }
  }
}
