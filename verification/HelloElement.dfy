// The elements of a hello message: version bitmaps, padded to eight bytes; elements of other
// types are skipped.

module ElementFormat {
  import opened Bytes
  import opened Tlv
  import opened ActionFormat

  const OFPHET_VERSIONBITMAP: u16 := 1

  datatype HelloElement = HelloElement(length: u16, bitmaps: seq<u32>)

  // Elements as the parser delivers them: at least one word, and the length that says so.
  predicate ElementOk(e: HelloElement)
  {
    e.bitmaps != [] && e.length == 4 + 4 * |e.bitmaps|
  }

  function WordsBytes(ws: seq<u32>): (s: seq<u8>)
    ensures |s| == 4 * |ws|
  {
    if ws == [] then [] else Put32(ws[0]) + WordsBytes(ws[1..])
  }

  function ElementBytes(e: HelloElement): (s: seq<u8>)
  {
    var words := WordsBytes(e.bitmaps);
    Element(OFPHET_VERSIONBITMAP, words) + Zeros(Pad(4 + |words|))
  }

  function ElementsBytes(es: seq<HelloElement>): seq<u8>
  {
    if es == [] then [] else ElementBytes(es[0]) + ElementsBytes(es[1..])
  }

  // The loop of versionbitmap_parse: words until length, a signed number, is used up.
  function ParseWords(s: seq<u8>, length: int): (r: Parsed<seq<u32>>)
    ensures r.Ok? ==> r.used == 4 * |r.value| <= |s| && length <= r.used
    ensures r.Ok? && length > 0 ==> r.used < length + 4
    decreases |s|
  {
    if length <= 0 then Ok([], 0)
    else if |s| < 4 then Fail(BAD_REQUEST_LEN)
    else match ParseWords(s[4..], length - 4)
      case Fail(f) => Fail(f)
      case Ok(ws, n) => Ok([Long(s, 0)] + ws, 4 + n)
  }

  // versionbitmap_parse, and the padding behind it.
  function ParseBitmap(s: seq<u8>, len: u16): (r: Parsed<seq<HelloElement>>)
    requires |s| >= 4
    ensures r.Ok? ==> 4 <= r.used <= |s|
  {
    match ParseWords(s[4..], len as int - 4)
    case Fail(f) => Fail(f)
    case Ok(ws, n) =>
      if |s| - 4 - n < Pad(len) then Fail(BAD_REQUEST_LEN)
      else Ok([HelloElement(len, ws)], 4 + n + Pad(len))
  }

  // ofp_element_parse: the elements delivered, none or one, and the bytes taken.
  function ParseElement(s: seq<u8>): (r: Parsed<seq<HelloElement>>)
    ensures r.Ok? ==> 0 < r.used <= |s|
  {
    if |s| < 4 then Fail(BAD_REQUEST_LEN)
    else
      var len: int := Word(s, 2);
      if len == 4 || len == 0 then Fail(BAD_REQUEST_LEN)
      else if Word(s, 0) == OFPHET_VERSIONBITMAP then
        ParseBitmap(s, len)
      else if |s| < len + Pad(len) then Fail(BAD_REQUEST_LEN)
      else Ok([], len + Pad(len))
  }

  // The loop of ofp_hello_handle.
  function ParseElements(s: seq<u8>): (r: Parsed<seq<HelloElement>>)
    ensures r.Ok? ==> r.used == |s|
    decreases |s|
  {
    if s == [] then Ok([], 0)
    else match ParseElement(s)
      case Fail(f) => Fail(f)
      case Ok(x, n) =>
        match ParseElements(s[n..])
        case Fail(f) => Fail(f)
        case Ok(es, m) => Ok(x + es, n + m)
  }

  lemma WordsUnfold(ws: seq<u32>, rest: seq<u8>)
    requires ws != []
    ensures
      var s := WordsBytes(ws) + rest;
      |s| >= 4 && Long(s, 0) == ws[0] && s[4..] == WordsBytes(ws[1..]) + rest
  {
    hide Put32;
    hide Long;
    LongInFront(ws[0], WordsBytes(ws[1..]), rest);
  }

  lemma LongInFront(w: u32, tail: seq<u8>, rest: seq<u8>)
    ensures
      var s := Put32(w) + tail + rest;
      |s| >= 4 && Long(s, 0) == w && s[4..] == tail + rest
  {
    hide Long;
    hide Put32;
    var s := Put32(w) + tail + rest;
    assert s[..4] == Put32(w);
    LongAt(s, 0, w);
  }

  lemma {:induction false} WordsRoundTrip(ws: seq<u32>, rest: seq<u8>)
    ensures ParseWords(WordsBytes(ws) + rest, 4 * |ws|) == Ok(ws, 4 * |ws|)
    decreases |ws|
  {
    if ws != [] {
      WordsUnfold(ws, rest);
      WordsRoundTrip(ws[1..], rest);
      hide WordsBytes;
      hide Long;
      assert ws == [ws[0]] + ws[1..];
    }
  }

  lemma ElementRoundTrip(e: HelloElement, rest: seq<u8>)
    requires ElementOk(e)
    ensures ParseElement(ElementBytes(e) + rest) == Ok([e], |ElementBytes(e)|)
  {
    hide Word;
    hide Pad;
    hide WordsBytes;
    hide ParseWords;
    var words := WordsBytes(e.bitmaps);
    var tail := Zeros(Pad(4 + |words|)) + rest;
    ElementHead(OFPHET_VERSIONBITMAP, words, tail);
    WordsRoundTrip(e.bitmaps, tail);
    assert ElementBytes(e) + rest == Element(OFPHET_VERSIONBITMAP, words) + tail;
    hide Element;
  }

  lemma ParseElementsCons(head: seq<u8>, tail: seq<u8>)
    requires ParseElement(head + tail).Ok? && ParseElement(head + tail).used == |head|
    ensures ParseElements(head + tail) ==
      match ParseElements(tail)
      case Fail(f) => Fail(f)
      case Ok(es, m) => Ok(ParseElement(head + tail).value + es, |head| + m)
  {
    hide ParseElement;
    assert (head + tail)[|head|..] == tail;
  }

  lemma ElementsUnfold(es: seq<HelloElement>)
    requires es != []
    ensures ElementsBytes(es) == ElementBytes(es[0]) + ElementsBytes(es[1..])
    ensures es == [es[0]] + es[1..]
  {
    hide ElementBytes;
  }

  // A list of version bitmaps survives the wire.
  lemma {:induction false} ElementsRoundTrip(es: seq<HelloElement>)
    requires forall e :: e in es ==> ElementOk(e)
    ensures ParseElements(ElementsBytes(es)) == Ok(es, |ElementsBytes(es)|)
  {
    if es != [] {
      hide *;
      ElementsUnfold(es);
      ElementRoundTrip(es[0], ElementsBytes(es[1..]));
      ElementsRoundTrip(es[1..]);
      ParseElementsCons(ElementBytes(es[0]), ElementsBytes(es[1..]));
    }
  }

  lemma {:induction false} WordCount(s: seq<u8>, length: int)
    requires ParseWords(s, length).Ok? && length % 4 == 0
    ensures 4 * |ParseWords(s, length).value| == if length <= 0 then 0 else length
    decreases |s|
  {
    hide Long;
    if length > 0 {
      WordCount(s[4..], length - 4);
    }
  }

  // What the parser makes of any encoded element, also of one whose length wraps: nothing, or an
  // element of its own that is the encoded one only if that is well formed.
  lemma ElementReads(e: HelloElement, rest: seq<u8>)
    ensures
      var r := ParseElement(ElementBytes(e) + rest);
      r.Ok? ==> |r.value| == 1 && (r.value[0] == e ==> ElementOk(e))
  {
    var words := WordsBytes(e.bitmaps);
    var tail := Zeros(Pad(4 + |words|)) + rest;
    assert ElementBytes(e) + rest == Element(OFPHET_VERSIONBITMAP, words) + tail;
    hide *;
    EncodedHead(OFPHET_VERSIONBITMAP, words, tail);
    HeadReads(ElementBytes(e) + rest, e);
  }

  lemma FieldOfWords(n: nat)
    ensures Field(4 + 4 * n) % 4 == 0
  {
  }

  lemma HeadReads(s: seq<u8>, e: HelloElement)
    requires |s| >= 4 && Word(s, 0) == OFPHET_VERSIONBITMAP && Word(s, 2) == Field(4 + 4 * |e.bitmaps|)
    ensures
      var r := ParseElement(s);
      r.Ok? ==> |r.value| == 1 && (r.value[0] == e ==> ElementOk(e))
  {
    hide Word;
    hide Pad;
    hide ParseWords;
    hide Field;
    var length: int := Field(4 + 4 * |e.bitmaps|);
    FieldOfWords(|e.bitmaps|);
    if ParseWords(s[4..], length - 4).Ok? {
      WordCount(s[4..], length - 4);
    }
  }

  lemma EncodedHead(kind: u16, body: seq<u8>, rest: seq<u8>)
    ensures
      var s := Element(kind, body) + rest;
      |s| >= 4 && Word(s, 0) == kind && Word(s, 2) == Field(4 + |body|)
  {
    hide Word;
    hide Put16;
    hide Field;
    var s := Element(kind, body) + rest;
    WordAt(s, 0, kind);
    WordAt(s, 2, Field(4 + |body|));
  }

  // So a list of elements comes back exactly when all of them are well formed. An empty bitmap
  // is written as a bare header, which the parser refuses.
  lemma {:induction false} ElementsRoundTripIff(es: seq<HelloElement>)
    ensures ParseElements(ElementsBytes(es)) == Ok(es, |ElementsBytes(es)|)
      <==> forall e :: e in es ==> ElementOk(e)
  {
    if forall e :: e in es ==> ElementOk(e) {
      ElementsRoundTrip(es);
    } else if ParseElements(ElementsBytes(es)) == Ok(es, |ElementsBytes(es)|) {
      ElementsUnfold(es);
      var head, tail := ElementBytes(es[0]), ElementsBytes(es[1..]);
      ElementReads(es[0], tail);
      FirstParsed(head + tail);
      hide *;
      ElementRoundTrip(es[0], tail);
      ParseElementsCons(head, tail);
      ElementsRoundTripIff(es[1..]);
      assert false;
    }
  }

  lemma FirstParsed(s: seq<u8>)
    requires s != [] && ParseElements(s).Ok? && (ParseElement(s).Ok? ==> |ParseElement(s).value| == 1)
    ensures ParseElement(s).Ok? && ParseElements(s).value != []
    ensures ParseElements(s).value[0] == ParseElement(s).value[0]
  {
    hide ParseElement;
  }
}

module ElementCodec {
  import opened Bytes
  import opened Results
  import opened Buffer
  import opened Tlv
  import opened ActionFormat
  import opened ActionParser
  import opened ActionEncoder
  import opened ElementFormat

  lemma {:induction false} ParseWordsStep(s: seq<u8>, length: int)
    ensures ParseWords(s, length) ==
      if length <= 0 then Ok([], 0)
      else if |s| < 4 then Fail(BAD_REQUEST_LEN)
      else Prepend([Long(s, 0)], 4, ParseWords(s[4..], length - 4))
  {}

  // The loop of versionbitmap_parse.
  method WordsParse(p: Pbuf, needed: int) returns (r: Parsed<seq<u32>>)
    requires p.Readable()
    modifies p`getp, p`plen
    ensures p.Readable() && r == ParseWords(old(p.Rest()), needed)
    ensures r.Ok? ==> Moved(p, r.used)
  {
    hide ParseWords;
    hide Prepend;
    hide Long;
    ghost var s := p.Rest();
    var length := needed;
    var start, ws := p.getp, [];
    PrependNothing(ParseWords(s, length));
    while length > 0
      invariant p.Readable() && start <= p.getp && p.getp + p.plen == start + |s|
      invariant p.Rest() == s[p.getp - start..]
      invariant ParseWords(s, needed) == Prepend(ws, p.getp - start, ParseWords(p.Rest(), length))
      decreases p.plen
    {
      ghost var n, rest := p.getp - start, p.Rest();
      ParseWordsStep(rest, length);
      var ret, b := p.Decode(4);
      if ret != OK {
        PrependFail(ws, n, BAD_REQUEST_LEN);
        return Fail(BAD_REQUEST_LEN);
      }
      LongPrefix(rest);
      PrependMany(ws, n, [Long(b, 0)], 4, ParseWords(p.Rest(), length - 4));
      ws := ws + [Long(b, 0)];
      length := length - 4;
    }
    PrependEnd(ws, p.getp - start);
    ParseWordsStep(p.Rest(), length);
    return Ok(ws, p.getp - start);
  }

  lemma LongPrefix(s: seq<u8>)
    requires |s| >= 4
    ensures Long(s[..4], 0) == Long(s, 0)
  {
  }

  // versionbitmap_parse, and the padding behind it. The header is known to be readable.
  method VersionBitmapParse(p: Pbuf, length: u16) returns (r: Parsed<seq<HelloElement>>)
    requires p.Readable() && p.plen >= 4
    modifies p`getp, p`plen
    ensures p.Readable() && r == ParseBitmap(old(p.Rest()), length)
    ensures r.Ok? ==> Moved(p, r.used)
  {
    hide ParseWords;
    hide Pad;
    ghost var s := p.Rest();
    var ret, b := p.Decode(4);
    var words := WordsParse(p, length as int - 4);
    if words.Fail? {
      return Fail(words.fault);
    }
    ret := p.Forward(Pad(length));
    if ret != OK {
      return Fail(BAD_REQUEST_LEN);
    }
    assert s[4..][words.used..] == s[4 + words.used..];
    assert s[4 + words.used..][Pad(length)..] == s[4 + words.used + Pad(length)..];
    return Ok([HelloElement(length, words.value)], 4 + words.used + Pad(length));
  }

  // ofp_element_parse without the clean-up after an error.
  method ElementBody(p: Pbuf) returns (r: Parsed<seq<HelloElement>>)
    requires p.Readable()
    modifies p`getp, p`plen
    ensures p.Readable() && r == ParseElement(old(p.Rest()))
    ensures r.Ok? ==> Moved(p, r.used)
  {
    hide ParseBitmap;
    hide Pad;
    hide Word;
    var ret, kind, length := TlvSneak(p);
    if ret != OK {
      return Fail(BAD_REQUEST_LEN);
    }
    // A bare header would be fine at the end of the message, but it is not the end: the four
    // bytes of the header are still unread.
    if length == 4 || length == 0 {
      return Fail(BAD_REQUEST_LEN);
    }
    if kind == OFPHET_VERSIONBITMAP {
      r := VersionBitmapParse(p, length);
      return;
    }
    var padding := Pad(length);
    ret := p.Forward(length + padding);
    if ret != OK {
      return Fail(BAD_REQUEST_LEN);
    }
    return Ok([], length + padding);
  }

  // ofp_element_parse: after an error the rest of the message is skipped.
  method ElementParse(p: Pbuf) returns (r: Parsed<seq<HelloElement>>)
    requires p.Readable()
    modifies p`getp, p`plen
    ensures p.Readable() && r == ParseElement(old(p.Rest()))
    ensures if r.Ok? then Moved(p, r.used) else p.plen == 0
  {
    r := ElementBody(p);
    if r.Fail? {
      var _ := p.Forward(p.plen);
    }
  }

  lemma {:induction false} ParseElementsStep(s: seq<u8>)
    ensures ParseElements(s) ==
      if s == [] then Ok([], 0)
      else match ParseElement(s)
        case Fail(f) => Fail(f)
        case Ok(x, n) => Prepend(x, n, ParseElements(s[n..]))
  {}

  // The loop of ofp_hello_handle: it ends on every input.
  method ElementsParse(p: Pbuf) returns (r: Parsed<seq<HelloElement>>)
    requires p.Readable()
    modifies p`getp, p`plen
    ensures p.Readable() && r == ParseElements(old(p.Rest())) && p.plen == 0
  {
    hide ParseElement;
    hide ParseElements;
    hide Prepend;
    ghost var s := p.Rest();
    var start, es := p.getp, [];
    PrependNothing(ParseElements(s));
    while p.plen > 0
      invariant p.Readable() && start <= p.getp
      invariant ParseElements(s) == Prepend(es, p.getp - start, ParseElements(p.Rest()))
      decreases p.plen
    {
      ghost var n := p.getp - start;
      ParseElementsStep(p.Rest());
      var one := ElementParse(p);
      if one.Fail? {
        PrependFail(es, n, one.fault);
        return Fail(one.fault);
      }
      PrependMany(es, n, one.value, one.used, ParseElements(p.Rest()));
      es := es + one.value;
    }
    PrependEnd(es, p.getp - start);
    ParseElementsStep(p.Rest());
    return Ok(es, p.getp - start);
  }

  lemma {:induction false} WordsSplit(ws: seq<u32>, k: nat)
    requires k <= |ws|
    ensures WordsBytes(ws) == WordsBytes(ws[..k]) + WordsBytes(ws[k..])
  {
    hide Put32;
    if k == 0 {
      assert ws[..0] == [] && ws[0..] == ws;
    } else {
      WordsSplit(ws[1..], k - 1);
      assert ws[..k][1..] == ws[1..][..k - 1] && ws[1..][k - 1..] == ws[k..];
    }
  }

  lemma WordsNext(ws: seq<u32>, k: nat)
    requires k < |ws|
    ensures WordsBytes(ws[..k + 1]) == WordsBytes(ws[..k]) + Put32(ws[k])
  {
    hide Put32;
    WordsSplit(ws[..k + 1], k);
    assert ws[..k + 1][..k] == ws[..k] && ws[..k + 1][k..] == [ws[k]];
    assert WordsBytes([ws[k]]) == Put32(ws[k]) + WordsBytes([ws[k]][1..]);
  }

  // versionbitmap_list_encode: it fails only when fewer than four bytes of room are left.
  method WordsEncode(p: Pbuf, ws: seq<u32>) returns (ret: Code, total: u16)
    requires CanEncode(p)
    modifies p`putp, p`plen, p`data
    ensures Encoded(p, ret, WordsBytes(ws)) && (ret == OK ==> total == |WordsBytes(ws)|)
    ensures ret != OK ==> p.plen < 4
  {
    hide Put32;
    hide WordsBytes;
    ret, total := OK, 0;
    for k := 0 to |ws|
      invariant ret == OK && CanEncode(p)
      invariant total == 4 * k && p.plen + total == old(p.plen)
      invariant p.Written() == old(p.Written()) + WordsBytes(ws[..k])
    {
      WordsNext(ws, k);
      ret := p.Encode(Put32(ws[k]));
      if ret != OK {
        return;
      }
      assert p.Written() == old(p.Written()) + WordsBytes(ws[..k + 1]);
      ret, total := LengthSum(total, 4);
    }
    assert ws[..|ws|] == ws;
  }

  lemma PadOfWords(n: nat)
    ensures Pad(4 + 4 * n) <= 4
  {
  }

  // One round of the loop of ofp_element_list_encode, for a version bitmap.
  method OneElementEncode(p: Pbuf, e: HelloElement) returns (ret: Code, headed: bool)
    requires CanEncode(p)
    modifies p`putp, p`plen, p`data
    ensures Encoded(p, ret, ElementBytes(e))
    ensures ret != OK ==> p.plen < 4
    ensures headed <==> 4 <= old(p.plen)
  {
    hide Put16;
    hide WordsBytes;
    hide Pad;
    ghost var before, words := p.Written(), WordsBytes(e.bitmaps);
    PadOfWords(|e.bitmaps|);
    var at := p.putp;
    ret := p.Encode(Put16(OFPHET_VERSIONBITMAP) + Put16(e.length));
    headed := ret == OK;
    if !headed {
      return;
    }
    var len;
    ret, len := WordsEncode(p, e.bitmaps);
    if ret != OK {
      return;
    }
    ret, len := LengthSum(len, 4);
    assert p.Written() == before + (Put16(OFPHET_VERSIONBITMAP) + Put16(e.length) + words);
    LengthSet(p, at + 2, len);
    PatchElement(before, OFPHET_VERSIONBITMAP, words, e.length);
    hide Element;
    ret, len := PaddingEncode(p, len);
    if ret == OK {
      assert p.Written() == before + ElementBytes(e);
    }
  }

  lemma {:induction false} ElementsSplit(es: seq<HelloElement>, k: nat)
    requires k <= |es|
    ensures ElementsBytes(es) == ElementsBytes(es[..k]) + ElementsBytes(es[k..])
  {
    hide ElementBytes;
    if k == 0 {
      assert es[..0] == [] && es[0..] == es;
    } else {
      ElementsSplit(es[1..], k - 1);
      assert es[..k][1..] == es[1..][..k - 1] && es[1..][k - 1..] == es[k..];
    }
  }

  lemma ElementsNext(es: seq<HelloElement>, k: nat)
    requires k < |es|
    ensures ElementsBytes(es[..k + 1]) == ElementsBytes(es[..k]) + ElementBytes(es[k])
    ensures |ElementsBytes(es[..k + 1])| <= |ElementsBytes(es)|
    ensures |ElementBytes(es[k])| >= 4
  {
    hide ElementBytes;
    ElementsSplit(es[..k + 1], k);
    ElementsSplit(es, k + 1);
    assert es[..k + 1][..k] == es[..k] && es[..k + 1][k..] == [es[k]];
    assert ElementsBytes([es[k]]) == ElementBytes(es[k]) + ElementsBytes([es[k]][1..]);
    ElementIsLong(es[k]);
  }

  lemma ElementIsLong(e: HelloElement)
    ensures |ElementBytes(e)| >= 4
  {
  }

  // ofp_element_list_encode. Only a header that does not fit ends the loop, and the result is
  // that of the last round; still it is OK only if every element was written, because an element fails
  // only where not even the next one's header has room.
  method ElementListEncode(p: Pbuf, es: seq<HelloElement>) returns (ret: Code)
    requires CanEncode(p)
    modifies p`putp, p`plen, p`data
    ensures Encoded(p, ret, ElementsBytes(es))
  {
    hide ElementBytes;
    ret := OK;
    assert es[..0] == [];
    for k := 0 to |es|
      invariant CanEncode(p)
      invariant ret == OK ==>
        && |ElementsBytes(es[..k])| <= old(p.plen) && p.plen == old(p.plen) - |ElementsBytes(es[..k])|
        && p.Written() == old(p.Written()) + ElementsBytes(es[..k])
      invariant ret != OK ==> p.plen < 4 && old(p.plen) < |ElementsBytes(es)|
    {
      ElementsNext(es, k);
      ghost var failed := ret != OK;
      var headed;
      ret, headed := OneElementEncode(p, es[k]);
      if !headed {
        return;
      }
      if ret == OK {
        assert !failed;
        assert p.Written() == old(p.Written()) + ElementsBytes(es[..k + 1]);
      }
    }
    assert es[..|es|] == es;
  }
}
