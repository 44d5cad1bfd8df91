// The codec generator: from the declaration list of a structure it emits an encoder, a decoder
// and a sneak decoder. The emitted C is modelled as a list of statements with a meaning of its
// own, so that the generator's output can be reasoned about for every declaration list.

module Codegen {
  import opened Bytes

  // A member of a structure: a scalar, an array of scalars, a nested structure or an array of
  // structures. A nested structure carries the declarations of its type.
  datatype Decl =
    | Field(kind: string)
    | Array(kind: string, count: nat)
    | Struct(kind: string, decls: seq<Decl>)
    | StructArray(kind: string, decls: seq<Decl>, count: nat)

  // decl_type_lookup, as the width of the type; an unknown type has none.
  function Width(kind: string): (w: nat)
    ensures w <= 8
  {
    if kind == "char" || kind == "uint8_t" then 1
    else if kind == "uint16_t" then 2
    else if kind == "uint32_t" then 4
    else if kind == "uint64_t" then 8
    else 0
  }

  predicate IsHeader(d: Decl)
  {
    d.Struct? && d.kind == "ofp_header"
  }

  // sizeof, without padding between members.
  function SizeOne(d: Decl): nat
  {
    match d
    case Field(kind) => Width(kind)
    case Array(kind, n) => Width(kind) * n
    case Struct(_, ds) => Size(ds)
    case StructArray(_, ds, n) => n * Size(ds)
  }

  function Size(ds: seq<Decl>): nat
  {
    if ds == [] then 0 else SizeOne(ds[0]) + Size(ds[1..])
  }

  // Every type that the emitted code has to know is known.
  predicate KnownOne(d: Decl)
  {
    match d
    case Field(kind) => Width(kind) > 0
    case Array(kind, _) => Width(kind) > 0
    case Struct(_, ds) => Known(ds)
    case StructArray(_, ds, _) => Known(ds)
  }

  predicate Known(ds: seq<Decl>)
  {
    ds == [] || (KnownOne(ds[0]) && Known(ds[1..]))
  }

  // The emitted statements. A field is named by its position in the structure; a call carries
  // the body of the function it calls.
  datatype Stmt =
    | Check(size: nat)
    | Num(field: nat, width: nat)
    | Nums(field: nat, width: nat, count: nat)
    | Raw(field: nat, count: nat)
    | Call(field: nat, body: seq<Stmt>)
    | Rewind(size: nat)

  function ScalarStmts(d: Decl, i: nat): seq<Stmt>
  {
    match d
    case Field(kind) => [Num(i, Width(kind))]
    case Array(kind, n) => if Width(kind) > 1 then [Nums(i, Width(kind), n)] else [Raw(i, n)]
    case _ => []
  }

  // exp_generate_encoder: every nested structure is encoded by its own encoder.
  function EncodeOne(d: Decl, i: nat): seq<Stmt>
  {
    if d.Struct? then [Call(i, Encoder(d.decls))] else ScalarStmts(d, i)
  }

  function EncodeFields(ds: seq<Decl>, i: nat): seq<Stmt>
  {
    if ds == [] then [] else EncodeOne(ds[0], i) + EncodeFields(ds[1..], i + 1)
  }

  function Encoder(ds: seq<Decl>): seq<Stmt>
  {
    [Check(Size(ds))] + EncodeFields(ds, 0)
  }

  // exp_generate_decoder: of the nested structures only an ofp_header is decoded.
  function DecodeOne(d: Decl, i: nat): seq<Stmt>
  {
    if IsHeader(d) then [Call(i, Decoder(d.decls))] else ScalarStmts(d, i)
  }

  function DecodeFields(ds: seq<Decl>, i: nat): seq<Stmt>
  {
    if ds == [] then [] else DecodeOne(ds[0], i) + DecodeFields(ds[1..], i + 1)
  }

  function Decoder(ds: seq<Decl>): seq<Stmt>
  {
    [Check(Size(ds))] + DecodeFields(ds, 0)
  }

  // exp_generate_sneak_decoder: a decoder that moves the cursor back by the structure's size.
  function Sneak(ds: seq<Decl>): seq<Stmt>
  {
    Decoder(ds) + [Rewind(Size(ds))]
  }

  // The members of a packet.
  datatype Value =
    | VNum(n: nat)
    | VNums(ns: seq<nat>)
    | VRaw(bytes: seq<u8>)
    | VRec(fields: seq<Value>)
    | VRows(rows: seq<seq<Value>>)

  function Pow256(w: nat): (p: nat)
    ensures p > 0
  {
    if w == 0 then 1 else 256 * Pow256(w - 1)
  }

  function Big(n: nat, w: nat): (b: seq<u8>)
    ensures |b| == w
  {
    if w == 0 then [] else Big(n / 256, w - 1) + [n % 256]
  }

  function FromBig(b: seq<u8>): nat
  {
    if b == [] then 0 else 256 * FromBig(b[..|b| - 1]) + b[|b| - 1]
  }

  lemma {:induction false} BigRoundTrip(n: nat, w: nat)
    requires n < Pow256(w)
    ensures FromBig(Big(n, w)) == n
  {
    if w > 0 {
      BigRoundTrip(n / 256, w - 1);
      assert Big(n, w)[..w - 1] == Big(n / 256, w - 1);
    }
  }

  function BigAll(ns: seq<nat>, w: nat): (b: seq<u8>)
    ensures |b| == w * |ns|
  {
    if ns == [] then []
    else
      MulSucc(w, |ns|);
      Big(ns[0], w) + BigAll(ns[1..], w)
  }

  lemma MulSucc(w: nat, n: nat)
    requires n > 0
    ensures w * n == w + w * (n - 1)
  {
  }

  function FromBigAll(b: seq<u8>, w: nat, n: nat): (ns: seq<nat>)
    requires |b| == w * n
    ensures |ns| == n
    decreases n
  {
    if n == 0 then []
    else
      MulSucc(w, n);
      [FromBig(b[..w])] + FromBigAll(b[w..], w, n - 1)
  }

  lemma {:induction false} BigAllRoundTrip(ns: seq<nat>, w: nat)
    requires forall k :: 0 <= k < |ns| ==> ns[k] < Pow256(w)
    ensures FromBigAll(BigAll(ns, w), w, |ns|) == ns
    decreases |ns|
  {
    hide Big;
    hide FromBig;
    hide Pow256;
    if ns != [] {
      BigRoundTrip(ns[0], w);
      BigAllRoundTrip(ns[1..], w);
      MulSucc(w, |ns|);
      var b := BigAll(ns, w);
      assert b[..w] == Big(ns[0], w) && b[w..] == BigAll(ns[1..], w);
      assert ns == [ns[0]] + ns[1..];
    }
  }

  predicate TypedOne(d: Decl, v: Value)
  {
    match d
    case Field(kind) => v.VNum? && v.n < Pow256(Width(kind))
    case Array(kind, n) =>
      if Width(kind) > 1 then v.VNums? && |v.ns| == n && forall k :: 0 <= k < n ==> v.ns[k] < Pow256(Width(kind))
      else v.VRaw? && |v.bytes| == n
    case Struct(_, ds) => v.VRec? && Typed(ds, v.fields)
    case StructArray(_, ds, n) => v.VRows? && |v.rows| == n && forall k :: 0 <= k < n ==> Typed(ds, v.rows[k])
  }

  predicate Typed(ds: seq<Decl>, vs: seq<Value>)
  {
    |ds| == |vs| && (ds == [] || (TypedOne(ds[0], vs[0]) && Typed(ds[1..], vs[1..])))
  }

  // Running an encoder: the bytes it appends and the room it leaves, a refusal by a size check,
  // or an overrun, which the emitted code does not guard against.
  datatype Encoded = Wrote(bytes: seq<u8>, room: nat) | EncRefused | EncOverrun

  function Emit(b: seq<u8>, room: nat): Encoded
  {
    if room < |b| then EncOverrun else Wrote(b, room - |b|)
  }

  function EncStmt(s: Stmt, vs: seq<Value>, room: nat): Encoded
  {
    match s
    case Check(n) => if room < n then EncRefused else Wrote([], room)
    case Num(i, w) => if i < |vs| && vs[i].VNum? then Emit(Big(vs[i].n, w), room) else EncOverrun
    case Nums(i, w, n) =>
      if i < |vs| && vs[i].VNums? && |vs[i].ns| == n then Emit(BigAll(vs[i].ns, w), room) else EncOverrun
    case Raw(i, n) => if i < |vs| && vs[i].VRaw? && |vs[i].bytes| == n then Emit(vs[i].bytes, room) else EncOverrun
    case Call(i, body) => if i < |vs| && vs[i].VRec? then Enc(body, vs[i].fields, room) else EncOverrun
    case Rewind(_) => EncOverrun
  }

  function Enc(code: seq<Stmt>, vs: seq<Value>, room: nat): Encoded
  {
    if code == [] then Wrote([], room)
    else
      match EncStmt(code[0], vs, room)
      case Wrote(b, r) =>
        (match Enc(code[1..], vs, r)
         case Wrote(c, q) => Wrote(b + c, q)
         case o => o)
      case o => o
  }

  // Running a decoder at a cursor: the packet, the cursor and the readable bytes it leaves.
  datatype Decoded = Read(vs: seq<Value>, pos: nat, room: nat) | DecRefused | DecOverrun

  // A statement that fills one field from the next n bytes.
  function Take(vs: seq<Value>, i: nat, v: Value, pos: nat, room: nat, n: nat): Decoded
    requires n <= room
  {
    if i < |vs| then Read(vs[i := v], pos + n, room - n) else DecOverrun
  }

  function DecStmt(s: Stmt, input: seq<u8>, vs: seq<Value>, pos: nat, room: nat): (r: Decoded)
    requires pos + room <= |input|
    ensures r.Read? ==> r.pos + r.room == pos + room
  {
    match s
    case Check(n) => if room < n then DecRefused else Read(vs, pos, room)
    case Num(i, w) => if room < w then DecOverrun else Take(vs, i, VNum(FromBig(input[pos..pos + w])), pos, room, w)
    case Nums(i, w, n) =>
      if room < w * n then DecOverrun
      else Take(vs, i, VNums(FromBigAll(input[pos..pos + w * n], w, n)), pos, room, w * n)
    case Raw(i, n) => if room < n then DecOverrun else Take(vs, i, VRaw(input[pos..pos + n]), pos, room, n)
    case Call(i, body) =>
      if i < |vs| && vs[i].VRec? then
        match Dec(body, input, vs[i].fields, pos, room)
        case Read(fs, p, r) => Read(vs[i := VRec(fs)], p, r)
        case o => o
      else DecOverrun
    case Rewind(n) => if pos < n then DecOverrun else Read(vs, pos - n, room + n)
  }

  function Dec(code: seq<Stmt>, input: seq<u8>, vs: seq<Value>, pos: nat, room: nat): (r: Decoded)
    requires pos + room <= |input|
    ensures r.Read? ==> r.pos + r.room == pos + room
  {
    if code == [] then Read(vs, pos, room)
    else
      match DecStmt(code[0], input, vs, pos, room)
      case Read(us, p, r) => Dec(code[1..], input, us, p, r)
      case o => o
  }

  // What the encoder writes, and how much; what the decoder consumes.
  function BytesOne(d: Decl, v: Value): seq<u8>
    requires TypedOne(d, v)
  {
    match d
    case Field(kind) => Big(v.n, Width(kind))
    case Array(kind, _) => if Width(kind) > 1 then BigAll(v.ns, Width(kind)) else v.bytes
    case Struct(_, ds) => BytesOf(ds, v.fields)
    case StructArray(_, _, _) => []
  }

  function BytesOf(ds: seq<Decl>, vs: seq<Value>): seq<u8>
    requires Typed(ds, vs)
  {
    if ds == [] then [] else BytesOne(ds[0], vs[0]) + BytesOf(ds[1..], vs[1..])
  }

  lemma BigTail(n: nat, w: nat)
    ensures Big(n, w + 2) == Big(n / 0x1_0000, w) + Put16(n % 0x1_0000)
  {
    assert n / 256 / 256 == n / 0x1_0000 && n / 256 % 256 == n % 0x1_0000 / 256 && n % 256 == n % 0x1_0000 % 256;
    assert Big(n, w + 2) == Big(n / 256, w + 1) + [n % 256];
    assert Big(n / 256, w + 1) == Big(n / 256 / 256, w) + [n / 256 % 256];
  }

  lemma BigByte(n: nat)
    ensures n < 0x100 ==> Big(n, 1) == [n]
  {
    assert Big(n, 1) == Big(n / 256, 0) + [n % 256];
  }

  lemma BigWord(n: nat)
    ensures n < 0x1_0000 ==> Big(n, 2) == Put16(n)
  {
    hide Put16;
    hide Big;
    BigTail(n, 0);
    NoDigits(n / 0x1_0000);
  }

  lemma BigLong(n: nat)
    ensures n < 0x1_0000_0000 ==> Big(n, 4) == Put32(n)
  {
    hide Put16;
    hide Big;
    BigTail(n, 2);
    BigTail(n / 0x1_0000, 0);
    NoDigits(n / 0x1_0000 / 0x1_0000);
  }

  lemma NoDigits(n: nat)
    ensures Big(n, 0) == []
  {
  }

  lemma BigQuad(n: nat)
    ensures n < 0x1_0000_0000_0000_0000 ==> Big(n, 8) == Put64(n)
  {
    if n < 0x1_0000_0000_0000_0000 {
      var hi: u32 := n / 0x1_0000_0000;
      var lo: u32 := n % 0x1_0000_0000;
      assert n / 0x1_0000 / 0x1_0000 == hi && n / 0x1_0000 % 0x1_0000 == lo / 0x1_0000;
      assert n % 0x1_0000 == lo % 0x1_0000;
      PutPair(hi, lo);
      hide Put16;
      hide Put64;
      hide Big;
      BigTail(n, 6);
      BigTail(n / 0x1_0000, 4);
      BigLong(hi);
    }
  }

  // The scalars on the wire: their widths, in the byte order of the protocol.
  lemma ScalarsOnWire(n: nat)
    ensures n < 0x100 ==>
      forall kind <- ["char", "uint8_t"] ::
        Typed([Field(kind)], [VNum(n)]) && BytesOf([Field(kind)], [VNum(n)]) == [n]
    ensures n < 0x1_0000 ==>
      Typed([Field("uint16_t")], [VNum(n)]) && BytesOf([Field("uint16_t")], [VNum(n)]) == Put16(n)
    ensures n < 0x1_0000_0000 ==>
      Typed([Field("uint32_t")], [VNum(n)]) && BytesOf([Field("uint32_t")], [VNum(n)]) == Put32(n)
    ensures n < 0x1_0000_0000_0000_0000 ==>
      Typed([Field("uint64_t")], [VNum(n)]) && BytesOf([Field("uint64_t")], [VNum(n)]) == Put64(n)
  {
    Powers();
    BigByte(n);
    BigWord(n);
    BigLong(n);
    BigQuad(n);
    hide Pow256;
    hide Big;
    hide Put16;
    hide Put32;
    hide Put64;
    OneScalar("char", n);
    OneScalar("uint8_t", n);
    OneScalar("uint16_t", n);
    OneScalar("uint32_t", n);
    OneScalar("uint64_t", n);
  }

  lemma OneScalar(kind: string, n: nat)
    ensures n < Pow256(Width(kind)) ==>
      Typed([Field(kind)], [VNum(n)]) && BytesOf([Field(kind)], [VNum(n)]) == Big(n, Width(kind))
  {
    hide Pow256;
    hide Big;
    hide Width;
    if n < Pow256(Width(kind)) {
      assert Typed([Field(kind)][1..], [VNum(n)][1..]);
      assert BytesOf([Field(kind)], [VNum(n)]) == Big(n, Width(kind)) + BytesOf([], []);
    }
  }

  lemma Powers()
    ensures Pow256(1) == 0x100 && Pow256(2) == 0x1_0000 && Pow256(4) == 0x1_0000_0000
    ensures Pow256(8) == 0x1_0000_0000_0000_0000
  {
    assert Pow256(3) == 0x100_0000;
    assert Pow256(5) == 0x100_0000_0000 && Pow256(6) == 0x1_0000_0000_0000 && Pow256(7) == 0x100_0000_0000_0000;
  }

  // Types that are not scalars have no width.
  lemma NoOtherScalars(kind: string)
    requires kind !in ["char", "uint8_t", "uint16_t", "uint32_t", "uint64_t"]
    ensures !Known([Field(kind)])
  {
  }

  function EncSizeOne(d: Decl): nat
  {
    match d
    case Struct(_, ds) => EncSize(ds)
    case StructArray(_, _, _) => 0
    case _ => SizeOne(d)
  }

  function EncSize(ds: seq<Decl>): nat
  {
    if ds == [] then 0 else EncSizeOne(ds[0]) + EncSize(ds[1..])
  }

  function DecSizeOne(d: Decl): nat
  {
    match d
    case Struct(kind, ds) => if kind == "ofp_header" then DecSize(ds) else 0
    case StructArray(_, _, _) => 0
    case _ => SizeOne(d)
  }

  function DecSize(ds: seq<Decl>): nat
  {
    if ds == [] then 0 else DecSizeOne(ds[0]) + DecSize(ds[1..])
  }

  lemma {:induction false} SizesOrdered(ds: seq<Decl>)
    ensures DecSize(ds) <= EncSize(ds) <= Size(ds)
  {
    if ds != [] {
      if ds[0].Struct? {
        SizesOrdered(ds[0].decls);
      }
      SizesOrdered(ds[1..]);
    }
  }

  lemma {:induction false} EncAppend(a: seq<Stmt>, b: seq<Stmt>, vs: seq<Value>, room: nat)
    ensures Enc(a + b, vs, room) ==
      match Enc(a, vs, room)
      case Wrote(x, r) => (match Enc(b, vs, r) case Wrote(y, q) => Wrote(x + y, q) case o => o)
      case o => o
    decreases |a|
  {
    if a == [] {
      assert a + b == b;
      if Enc(b, vs, room).Wrote? {
        assert [] + Enc(b, vs, room).bytes == Enc(b, vs, room).bytes;
      }
    } else {
      assert (a + b)[0] == a[0] && (a + b)[1..] == a[1..] + b;
      var o := EncStmt(a[0], vs, room);
      if o.Wrote? {
        EncAppend(a[1..], b, vs, o.room);
        var x := Enc(a[1..], vs, o.room);
        if x.Wrote? {
          var y := Enc(b, vs, x.room);
          if y.Wrote? {
            assert o.bytes + (x.bytes + y.bytes) == o.bytes + x.bytes + y.bytes;
          }
        }
      }
    }
  }

  lemma {:induction false} EncOneRuns(d: Decl, i: nat, vs: seq<Value>, room: nat)
    requires i < |vs| && KnownOne(d) && TypedOne(d, vs[i]) && SizeOne(d) <= room
    ensures |BytesOne(d, vs[i])| == EncSizeOne(d) <= SizeOne(d)
    ensures Enc(EncodeOne(d, i), vs, room) == Wrote(BytesOne(d, vs[i]), room - EncSizeOne(d))
    decreases d, 0
  {
    var code := EncodeOne(d, i);
    if d.Struct? {
      EncoderRuns(d.decls, vs[i].fields, room);
      SizesOrdered(d.decls);
    }
    if !d.StructArray? {
      assert |code| == 1 && code[1..] == [];
      OneStmt(code[0], vs, room);
    }
  }

  lemma EncNothing(vs: seq<Value>, room: nat)
    ensures Enc([], vs, room) == Wrote([], room)
  {
  }

  lemma OneStmt(s: Stmt, vs: seq<Value>, room: nat)
    ensures Enc([s], vs, room) == EncStmt(s, vs, room)
  {
    var o := EncStmt(s, vs, room);
    assert [s][1..] == [];
    if o.Wrote? {
      assert Enc([s][1..], vs, o.room) == Wrote([], o.room);
      assert o.bytes + [] == o.bytes;
    }
  }

  // After the size check the emitted encoder cannot fail: neither its own statements nor the
  // nested encoders' checks.
  lemma {:induction false} EncFieldsRun(ds: seq<Decl>, i: nat, vs: seq<Value>, room: nat)
    requires i + |ds| == |vs| && Known(ds) && Typed(ds, vs[i..]) && Size(ds) <= room
    ensures |BytesOf(ds, vs[i..])| == EncSize(ds) <= Size(ds)
    ensures Enc(EncodeFields(ds, i), vs, room) == Wrote(BytesOf(ds, vs[i..]), room - EncSize(ds))
    decreases ds, 1
  {
    hide Enc;
    hide EncodeOne;
    hide EncSizeOne;
    hide SizeOne;
    hide BytesOne;
    hide KnownOne;
    hide TypedOne;
    if ds == [] {
      EncNothing(vs, room);
    } else {
      assert vs[i..][0] == vs[i] && vs[i..][1..] == vs[i + 1..];
      EncOneRuns(ds[0], i, vs, room);
      EncFieldsRun(ds[1..], i + 1, vs, room - EncSizeOne(ds[0]));
      EncAppend(EncodeOne(ds[0], i), EncodeFields(ds[1..], i + 1), vs, room);
    }
  }

  // The generated encoder, run on any packet of its type.
  lemma {:induction false} EncoderRuns(ds: seq<Decl>, vs: seq<Value>, room: nat)
    requires Known(ds) && Typed(ds, vs)
    ensures |BytesOf(ds, vs)| == EncSize(ds) <= Size(ds)
    ensures Enc(Encoder(ds), vs, room) ==
      if room < Size(ds) then EncRefused else Wrote(BytesOf(ds, vs), room - EncSize(ds))
    decreases ds, 2
  {
    assert vs[0..] == vs;
    EncFieldsRun(ds, 0, vs, Size(ds) + room);
    if room >= Size(ds) {
      EncFieldsRun(ds, 0, vs, room);
    }
    EncAppend([Check(Size(ds))], EncodeFields(ds, 0), vs, room);
    OneStmt(Check(Size(ds)), vs, room);
  }

  // What decoding leaves in a packet: the decoded members, and of the others the old contents.
  function MergeOne(d: Decl, v: Value, was: Value): Value
    requires TypedOne(d, v) && TypedOne(d, was)
  {
    match d
    case Struct(kind, ds) => if kind == "ofp_header" then VRec(Merge(ds, v.fields, was.fields)) else was
    case StructArray(_, _, _) => was
    case _ => v
  }

  function Merge(ds: seq<Decl>, vs: seq<Value>, olds: seq<Value>): (r: seq<Value>)
    requires Typed(ds, vs) && Typed(ds, olds)
    ensures |r| == |ds|
  {
    if ds == [] then [] else [MergeOne(ds[0], vs[0], olds[0])] + Merge(ds[1..], vs[1..], olds[1..])
  }

  lemma {:induction false} DecAppend(a: seq<Stmt>, b: seq<Stmt>, input: seq<u8>, vs: seq<Value>, pos: nat, room: nat)
    requires pos + room <= |input|
    ensures Dec(a + b, input, vs, pos, room) ==
      match Dec(a, input, vs, pos, room)
      case Read(us, p, r) => Dec(b, input, us, p, r)
      case o => o
    decreases |a|
  {
    if a == [] {
      assert a + b == b;
    } else {
      assert (a + b)[0] == a[0] && (a + b)[1..] == a[1..] + b;
      var o := DecStmt(a[0], input, vs, pos, room);
      if o.Read? {
        DecAppend(a[1..], b, input, o.vs, o.pos, o.room);
      }
    }
  }

  lemma DecNothing(input: seq<u8>, vs: seq<Value>, pos: nat, room: nat)
    requires pos + room <= |input|
    ensures Dec([], input, vs, pos, room) == Read(vs, pos, room)
  {
  }

  lemma DecOneStmt(s: Stmt, input: seq<u8>, vs: seq<Value>, pos: nat, room: nat)
    requires pos + room <= |input|
    ensures Dec([s], input, vs, pos, room) == DecStmt(s, input, vs, pos, room)
  {
    hide DecStmt;
    assert [s][1..] == [];
  }

  // One member: the decoder moves the cursor by its size and touches no other member.
  lemma {:induction false} DecOneMoves(d: Decl, input: seq<u8>, i: nat, vs: seq<Value>, pos: nat, room: nat)
    returns (v: Value)
    requires i < |vs| && KnownOne(d) && TypedOne(d, vs[i]) && SizeOne(d) <= room && pos + room <= |input|
    ensures DecSizeOne(d) <= SizeOne(d)
    ensures Dec(DecodeOne(d, i), input, vs, pos, room) == Read(vs[i := v], pos + DecSizeOne(d), room - DecSizeOne(d))
    decreases d, 0
  {
    SizesOrdered([d]);
    assert [d][0] == d && [d][1..] == [];
    assert DecSizeOne(d) <= SizeOne(d);
    var code := DecodeOne(d, i);
    if code == [] {
      v := vs[i];
      assert vs[i := v] == vs;
    } else {
      if IsHeader(d) {
        var us := DecoderMoves(d.decls, input, vs[i].fields, pos, room);
      }
      assert code == [code[0]];
      DecOneStmt(code[0], input, vs, pos, room);
      v := DecStmt(code[0], input, vs, pos, room).vs[i];
    }
  }

  lemma {:induction false} DecFieldsMove(ds: seq<Decl>, input: seq<u8>, i: nat, vs: seq<Value>, pos: nat, room: nat)
    returns (us: seq<Value>)
    requires i + |ds| == |vs| && Known(ds) && Typed(ds, vs[i..]) && Size(ds) <= room && pos + room <= |input|
    ensures DecSize(ds) <= Size(ds)
    ensures Dec(DecodeFields(ds, i), input, vs, pos, room) == Read(us, pos + DecSize(ds), room - DecSize(ds))
    decreases ds, 1
  {
    SizesOrdered(ds);
    hide Dec;
    hide DecodeOne;
    hide DecSizeOne;
    hide SizeOne;
    hide KnownOne;
    hide TypedOne;
    if ds == [] {
      us := vs;
      DecNothing(input, vs, pos, room);
    } else {
      assert vs[i..][0] == vs[i] && vs[i..][1..] == vs[i + 1..];
      var v := DecOneMoves(ds[0], input, i, vs, pos, room);
      var ws, n := vs[i := v], DecSizeOne(ds[0]);
      assert ws[i + 1..] == vs[i + 1..];
      us := DecFieldsMove(ds[1..], input, i + 1, ws, pos + n, room - n);
      DecAppend(DecodeOne(ds[0], i), DecodeFields(ds[1..], i + 1), input, vs, pos, room);
    }
  }

  // The generated decoder on any bytes: once its size check has passed nothing in it can fail,
  // the nested header decoder's check included.
  lemma {:induction false} DecoderMoves(ds: seq<Decl>, input: seq<u8>, vs: seq<Value>, pos: nat, room: nat)
    returns (us: seq<Value>)
    requires Known(ds) && Typed(ds, vs) && pos + room <= |input|
    ensures DecSize(ds) <= Size(ds)
    ensures Dec(Decoder(ds), input, vs, pos, room) ==
      if room < Size(ds) then DecRefused else Read(us, pos + DecSize(ds), room - DecSize(ds))
    decreases ds, 2
  {
    SizesOrdered(ds);
    us := vs;
    if room >= Size(ds) {
      assert vs[0..] == vs;
      us := DecFieldsMove(ds, input, 0, vs, pos, room);
    }
    DecAppend([Check(Size(ds))], DecodeFields(ds, 0), input, vs, pos, room);
    DecOneStmt(Check(Size(ds)), input, vs, pos, room);
  }

  // The lists for which the decoder consumes what the encoder writes: every nested structure
  // other than an ofp_header is encoded in no bytes at all.
  predicate MatchedOne(d: Decl)
  {
    match d
    case Struct(kind, ds) => if kind == "ofp_header" then Matched(ds) else EncSize(ds) == 0
    case _ => true
  }

  predicate Matched(ds: seq<Decl>)
  {
    ds == [] || (MatchedOne(ds[0]) && Matched(ds[1..]))
  }

  lemma {:induction false} MatchedIff(ds: seq<Decl>)
    ensures Matched(ds) <==> DecSize(ds) == EncSize(ds)
  {
    if ds != [] {
      MatchedIff(ds[1..]);
      SizesOrdered(ds[1..]);
      if ds[0].Struct? {
        MatchedIff(ds[0].decls);
        SizesOrdered(ds[0].decls);
      }
    }
  }

  // The lists whose decoder consumes the whole structure.
  predicate FullOne(d: Decl)
  {
    match d
    case Struct(kind, ds) => if kind == "ofp_header" then Full(ds) else Size(ds) == 0
    case StructArray(_, ds, n) => n * Size(ds) == 0
    case _ => true
  }

  predicate Full(ds: seq<Decl>)
  {
    ds == [] || (FullOne(ds[0]) && Full(ds[1..]))
  }

  lemma {:induction false} FullIff(ds: seq<Decl>)
    ensures Full(ds) <==> DecSize(ds) == Size(ds)
  {
    if ds != [] {
      FullIff(ds[1..]);
      SizesOrdered(ds[1..]);
      if ds[0].Struct? {
        FullIff(ds[0].decls);
        SizesOrdered(ds[0].decls);
      }
    }
  }

  // Running the decoder on what the encoder wrote leaves the cursor behind it exactly for the
  // matched lists.
  lemma CursorsAgreeIff(ds: seq<Decl>, vs: seq<Value>, olds: seq<Value>, rest: seq<u8>)
    requires Known(ds) && Typed(ds, vs) && Typed(ds, olds) && Size(ds) <= |BytesOf(ds, vs) + rest|
    ensures
      var input := BytesOf(ds, vs) + rest;
      var r := Dec(Decoder(ds), input, olds, 0, |input|);
      r.Read? && (r.pos == |BytesOf(ds, vs)| <==> Matched(ds))
  {
    var input := BytesOf(ds, vs) + rest;
    var us := DecoderMoves(ds, input, olds, 0, |input|);
    EncoderRuns(ds, vs, Size(ds));
    MatchedIff(ds);
  }

  // The sneak decoder gives the cursor back exactly for the full lists; for another it leaves
  // the cursor too far back.
  lemma SneakRestoresIff(ds: seq<Decl>, input: seq<u8>, vs: seq<Value>, pos: nat, room: nat)
    requires Known(ds) && Typed(ds, vs) && pos + room <= |input| && Size(ds) <= room
    ensures
      var r := Dec(Sneak(ds), input, vs, pos, room);
      && (Full(ds) ==> r.Read? && r.pos == pos && r.room == room)
      && (!Full(ds) ==> r == DecOverrun || (r.Read? && r.pos < pos))
  {
    var us := DecoderMoves(ds, input, vs, pos, room);
    FullIff(ds);
    DecAppend(Decoder(ds), [Rewind(Size(ds))], input, vs, pos, room);
    hide Decoder;
    hide Dec;
    DecOneStmt(Rewind(Size(ds)), input, us, pos + DecSize(ds), room - DecSize(ds));
  }

  lemma Prefix(b: seq<u8>, input: seq<u8>, pos: nat)
    requires pos <= |input| && b <= input[pos..]
    ensures pos + |b| <= |input| && input[pos..pos + |b|] == b
  {
    assert input[pos..pos + |b|] == input[pos..][..|b|];
  }

  lemma FieldReads(w: nat, n: nat, input: seq<u8>, i: nat, vs: seq<Value>, pos: nat, room: nat)
    requires i < |vs| && n < Pow256(w) && w <= room && pos + room <= |input| && Big(n, w) <= input[pos..]
    ensures DecStmt(Num(i, w), input, vs, pos, room) == Read(vs[i := VNum(n)], pos + w, room - w)
  {
    Prefix(Big(n, w), input, pos);
    BigRoundTrip(n, w);
  }

  lemma ArrayReads(w: nat, ns: seq<nat>, input: seq<u8>, i: nat, vs: seq<Value>, pos: nat, room: nat)
    requires i < |vs| && (forall k :: 0 <= k < |ns| ==> ns[k] < Pow256(w))
    requires w * |ns| <= room && pos + room <= |input| && BigAll(ns, w) <= input[pos..]
    ensures DecStmt(Nums(i, w, |ns|), input, vs, pos, room) == Read(vs[i := VNums(ns)], pos + w * |ns|, room - w * |ns|)
  {
    hide BigAll;
    hide FromBigAll;
    hide Pow256;
    Prefix(BigAll(ns, w), input, pos);
    BigAllRoundTrip(ns, w);
  }

  lemma ScalarReads(d: Decl, v: Value, input: seq<u8>, i: nat, vs: seq<Value>, pos: nat, room: nat)
    requires (d.Field? || d.Array?) && i < |vs| && KnownOne(d) && TypedOne(d, v)
    requires SizeOne(d) <= room && pos + room <= |input| && BytesOne(d, v) <= input[pos..]
    ensures |ScalarStmts(d, i)| == 1
    ensures
      var r := DecStmt(ScalarStmts(d, i)[0], input, vs, pos, room);
      r.Read? && r.vs == vs[i := v]
  {
    match d
    case Field(kind) => FieldReads(Width(kind), v.n, input, i, vs, pos, room);
    case Array(kind, n) =>
      if Width(kind) > 1 {
        ArrayReads(Width(kind), v.ns, input, i, vs, pos, room);
      } else {
        Prefix(v.bytes, input, pos);
      }
  }

  lemma {:induction false} DecOneReads(d: Decl, v: Value, input: seq<u8>, i: nat, vs: seq<Value>, pos: nat, room: nat)
    requires i < |vs| && KnownOne(d) && MatchedOne(d) && TypedOne(d, v) && TypedOne(d, vs[i])
    requires SizeOne(d) <= room && pos + room <= |input|
    requires BytesOne(d, v) <= input[pos..]
    ensures Dec(DecodeOne(d, i), input, vs, pos, room).Read?
    ensures Dec(DecodeOne(d, i), input, vs, pos, room).vs == vs[i := MergeOne(d, v, vs[i])]
    decreases d, 0
  {
    var code := DecodeOne(d, i);
    if code == [] {
      assert vs[i := vs[i]] == vs;
    } else {
      assert code == [code[0]];
      DecOneStmt(code[0], input, vs, pos, room);
      if d.Struct? {
        DecoderReads(d.decls, v.fields, input, vs[i].fields, pos, room);
      } else {
        ScalarReads(d, v, input, i, vs, pos, room);
        hide DecStmt;
        hide ScalarStmts;
      }
    }
  }

  lemma MergeStep(ds: seq<Decl>, us: seq<Value>, i: nat, vs: seq<Value>)
    requires ds != [] && i + |ds| == |vs| && Typed(ds, us) && Typed(ds, vs[i..])
    ensures TypedOne(ds[0], us[0]) && TypedOne(ds[0], vs[i])
    ensures
      var ws := vs[i := MergeOne(ds[0], us[0], vs[i])];
      && Typed(ds[1..], us[1..]) && Typed(ds[1..], ws[i + 1..])
      && ws[..i + 1] + Merge(ds[1..], us[1..], ws[i + 1..]) == vs[..i] + Merge(ds, us, vs[i..])
  {
    hide TypedOne;
    hide MergeOne;
    assert vs[i..][0] == vs[i] && vs[i..][1..] == vs[i + 1..];
    var m := MergeOne(ds[0], us[0], vs[i]);
    var ws := vs[i := m];
    assert ws[i + 1..] == vs[i + 1..];
    assert ws[..i + 1] == vs[..i] + [m];
  }

  lemma {:induction false} DecFieldsRead(ds: seq<Decl>, us: seq<Value>, input: seq<u8>, i: nat,
                                         vs: seq<Value>, pos: nat, room: nat)
    requires i + |ds| == |vs| && Known(ds) && Matched(ds) && Typed(ds, us) && Typed(ds, vs[i..])
    requires Size(ds) <= room && pos + room <= |input|
    requires BytesOf(ds, us) <= input[pos..]
    ensures Dec(DecodeFields(ds, i), input, vs, pos, room).Read?
    ensures Dec(DecodeFields(ds, i), input, vs, pos, room).vs == vs[..i] + Merge(ds, us, vs[i..])
    decreases ds, 1
  {
    hide Dec;
    hide DecodeOne;
    hide DecSizeOne;
    hide EncSizeOne;
    hide SizeOne;
    hide KnownOne;
    hide TypedOne;
    hide MatchedOne;
    hide MergeOne;
    hide BytesOne;
    if ds == [] {
      DecNothing(input, vs, pos, room);
      assert vs[..i] == vs;
    } else {
      MergeStep(ds, us, i, vs);
      FirstBytes(ds, us, input, pos);
      hide Typed;
      hide Merge;
      hide BytesOf;
      DecOneReads(ds[0], us[0], input, i, vs, pos, room);
      var w := DecOneMoves(ds[0], input, i, vs, pos, room);
      var n := DecSizeOne(ds[0]);
      DecFieldsRead(ds[1..], us[1..], input, i + 1, vs[i := MergeOne(ds[0], us[0], vs[i])], pos + n, room - n);
      DecAppend(DecodeOne(ds[0], i), DecodeFields(ds[1..], i + 1), input, vs, pos, room);
    }
  }

  // Where the first member's bytes end the decoder goes on.
  lemma FirstBytes(ds: seq<Decl>, us: seq<Value>, input: seq<u8>, pos: nat)
    requires ds != [] && Known(ds) && Matched(ds) && Typed(ds, us)
    requires pos <= |input| && BytesOf(ds, us) <= input[pos..]
    ensures |BytesOne(ds[0], us[0])| == DecSizeOne(ds[0])
    ensures pos + DecSizeOne(ds[0]) <= |input|
    ensures BytesOne(ds[0], us[0]) <= input[pos..] && BytesOf(ds[1..], us[1..]) <= input[pos + DecSizeOne(ds[0])..]
  {
    EncOneRuns(ds[0], 0, us, SizeOne(ds[0]));
    assert Matched([ds[0]]) && [ds[0]][1..] == [];
    MatchedIff([ds[0]]);
    var a, b, n := BytesOne(ds[0], us[0]), BytesOf(ds[1..], us[1..]), DecSizeOne(ds[0]);
    assert |a| == n;
    assert input[pos..][..|a + b|] == a + b;
    assert input[pos + n..] == input[pos..][n..];
    assert input[pos..][n..][..|b|] == b;
  }

  lemma {:induction false} DecoderReads(ds: seq<Decl>, us: seq<Value>, input: seq<u8>,
                                        vs: seq<Value>, pos: nat, room: nat)
    requires Known(ds) && Matched(ds) && Typed(ds, us) && Typed(ds, vs)
    requires Size(ds) <= room && pos + room <= |input|
    requires BytesOf(ds, us) <= input[pos..]
    ensures Dec(Decoder(ds), input, vs, pos, room).Read?
    ensures Dec(Decoder(ds), input, vs, pos, room).vs == Merge(ds, us, vs)
    decreases ds, 2
  {
    assert vs[0..] == vs && vs[..0] == [];
    DecFieldsRead(ds, us, input, 0, vs, pos, room);
    DecAppend([Check(Size(ds))], DecodeFields(ds, 0), input, vs, pos, room);
    DecOneStmt(Check(Size(ds)), input, vs, pos, room);
  }

  // A structure that takes no room has only one value.
  lemma {:induction false} EmptyIsUnique(ds: seq<Decl>, vs: seq<Value>, us: seq<Value>)
    requires Known(ds) && Size(ds) == 0 && Typed(ds, vs) && Typed(ds, us)
    ensures vs == us
    decreases ds, 1
  {
    if ds != [] {
      EmptyOneIsUnique(ds[0], vs[0], us[0]);
      EmptyIsUnique(ds[1..], vs[1..], us[1..]);
      assert vs == [vs[0]] + vs[1..] && us == [us[0]] + us[1..];
    }
  }

  lemma {:induction false} EmptyOneIsUnique(d: Decl, v: Value, u: Value)
    requires KnownOne(d) && SizeOne(d) == 0 && TypedOne(d, v) && TypedOne(d, u)
    ensures v == u
    decreases d, 0
  {
    match d
    case Field(kind) =>
    case Array(kind, n) => assert n == 0;
    case Struct(_, ds) => EmptyIsUnique(ds, v.fields, u.fields);
    case StructArray(_, ds, n) =>
      forall k | 0 <= k < n
        ensures v.rows[k] == u.rows[k]
      {
        NoFactor(n, Size(ds));
        EmptyIsUnique(ds, v.rows[k], u.rows[k]);
      }
      assert v.rows == u.rows;
  }

  lemma NoFactor(n: nat, m: nat)
    requires n * m == 0 && n > 0
    ensures m == 0
  {
  }

  // The value of a type with every byte-sized piece b.
  function FillOne(d: Decl, b: u8): Value
  {
    match d
    case Field(_) => VNum(b)
    case Array(kind, n) => if Width(kind) > 1 then VNums(seq(n, _ => b)) else VRaw(seq(n, _ => b))
    case Struct(_, ds) => VRec(Fill(ds, b))
    case StructArray(_, ds, n) => var row := Fill(ds, b); VRows(seq(n, _ => row))
  }

  function Fill(ds: seq<Decl>, b: u8): seq<Value>
  {
    if ds == [] then [] else [FillOne(ds[0], b)] + Fill(ds[1..], b)
  }

  lemma WidePow(w: nat)
    requires w > 0
    ensures Pow256(w) >= 256
  {
    assert Pow256(w) == 256 * Pow256(w - 1);
  }

  lemma {:induction false} FillTyped(ds: seq<Decl>, b: u8)
    requires Known(ds)
    ensures Typed(ds, Fill(ds, b))
    decreases ds, 1
  {
    if ds != [] {
      FillOneTyped(ds[0], b);
      FillTyped(ds[1..], b);
    }
  }

  lemma {:induction false} FillOneTyped(d: Decl, b: u8)
    requires KnownOne(d)
    ensures TypedOne(d, FillOne(d, b))
    decreases d, 0
  {
    match d
    case Field(kind) => WidePow(Width(kind));
    case Array(kind, n) => WidePow(Width(kind));
    case Struct(_, ds) => FillTyped(ds, b);
    case StructArray(_, ds, n) => FillTyped(ds, b);
  }

  lemma {:induction false} FillDiffers(ds: seq<Decl>)
    requires Size(ds) > 0
    ensures Fill(ds, 0) != Fill(ds, 1)
    decreases ds, 1
  {
    if SizeOne(ds[0]) > 0 {
      FillOneDiffers(ds[0]);
      assert Fill(ds, 0)[0] != Fill(ds, 1)[0];
    } else {
      FillDiffers(ds[1..]);
      assert Fill(ds, 0)[1..] != Fill(ds, 1)[1..];
    }
  }

  lemma {:induction false} FillOneDiffers(d: Decl)
    requires SizeOne(d) > 0
    ensures FillOne(d, 0) != FillOne(d, 1)
    decreases d, 0
  {
    match d
    case Field(_) =>
    case Array(kind, n) =>
      assert n > 0;
      if Width(kind) > 1 {
        assert FillOne(d, 0).ns[0] != FillOne(d, 1).ns[0];
      } else {
        assert FillOne(d, 0).bytes[0] != FillOne(d, 1).bytes[0];
      }
    case Struct(_, ds) => FillDiffers(ds);
    case StructArray(_, ds, n) =>
      assert n > 0 && Size(ds) > 0;
      FillDiffers(ds);
      assert FillOne(d, 0).rows[0] != FillOne(d, 1).rows[0];
  }

  // In a full list decoding restores every member: what is not decoded has only one value.
  lemma {:induction false} FullMerges(ds: seq<Decl>, vs: seq<Value>, olds: seq<Value>)
    requires Known(ds) && Full(ds) && Typed(ds, vs) && Typed(ds, olds)
    ensures Merge(ds, vs, olds) == vs
  {
    if ds != [] {
      FullMerges(ds[1..], vs[1..], olds[1..]);
      if IsHeader(ds[0]) {
        FullMerges(ds[0].decls, vs[0].fields, olds[0].fields);
      } else if ds[0].Struct? || ds[0].StructArray? {
        EmptyOneIsUnique(ds[0], vs[0], olds[0]);
      }
      assert vs == [vs[0]] + vs[1..];
    }
  }

  // In another some member keeps what it held before.
  lemma {:induction false} OthersMerge(ds: seq<Decl>)
    requires Known(ds) && !Full(ds) && Typed(ds, Fill(ds, 0)) && Typed(ds, Fill(ds, 1))
    ensures Merge(ds, Fill(ds, 0), Fill(ds, 1)) != Fill(ds, 0)
  {
    var d, vs, olds := ds[0], Fill(ds, 0), Fill(ds, 1);
    assert vs[0] == FillOne(d, 0) && vs[1..] == Fill(ds[1..], 0);
    assert olds[0] == FillOne(d, 1) && olds[1..] == Fill(ds[1..], 1);
    var m := Merge(ds, vs, olds);
    if FullOne(d) {
      OthersMerge(ds[1..]);
      assert m[1..] == Merge(ds[1..], vs[1..], olds[1..]);
    } else {
      if IsHeader(d) {
        OthersMerge(d.decls);
      } else {
        FillOneDiffers(d);
      }
      assert m[0] == MergeOne(d, vs[0], olds[0]);
    }
  }

  // Whatever the packet held before and whatever follows in the buffer, decoding what was
  // encoded gives the packet back and stops behind it.
  ghost predicate Inverts(ds: seq<Decl>)
  {
    forall vs, olds, rest ::
      Typed(ds, vs) && Typed(ds, olds) && Size(ds) <= |BytesOf(ds, vs)| + |rest| ==>
      Restores(ds, vs, olds, rest)
  }

  ghost predicate Restores(ds: seq<Decl>, vs: seq<Value>, olds: seq<Value>, rest: seq<u8>)
    requires Typed(ds, vs)
  {
    var input := BytesOf(ds, vs) + rest;
    Dec(Decoder(ds), input, olds, 0, |input|) == Read(vs, |BytesOf(ds, vs)|, |rest|)
  }

  lemma FullIsMatched(ds: seq<Decl>)
    requires Full(ds)
    ensures Matched(ds) && EncSize(ds) == Size(ds)
  {
    FullIff(ds);
    SizesOrdered(ds);
    MatchedIff(ds);
  }

  lemma FullRestores(ds: seq<Decl>, vs: seq<Value>, olds: seq<Value>, rest: seq<u8>)
    requires Known(ds) && Full(ds) && Typed(ds, vs) && Typed(ds, olds)
    ensures |BytesOf(ds, vs)| == Size(ds) && Restores(ds, vs, olds, rest)
  {
    FullIsMatched(ds);
    EncoderRuns(ds, vs, Size(ds));
    FullMerges(ds, vs, olds);
    hide Full;
    hide Encoder;
    hide Decoder;
    var input := BytesOf(ds, vs) + rest;
    assert input[0..] == input;
    DecoderReads(ds, vs, input, olds, 0, |input|);
    var us := DecoderMoves(ds, input, olds, 0, |input|);
    MatchedIff(ds);
  }

  lemma OthersFail(ds: seq<Decl>) returns (vs: seq<Value>, olds: seq<Value>, rest: seq<u8>)
    requires Known(ds) && !Full(ds)
    ensures Typed(ds, vs) && Typed(ds, olds) && Size(ds) <= |BytesOf(ds, vs)| + |rest|
    ensures !Restores(ds, vs, olds, rest)
  {
    FillTyped(ds, 0);
    FillTyped(ds, 1);
    vs, olds, rest := Fill(ds, 0), Fill(ds, 1), Zeros(Size(ds));
    var input := BytesOf(ds, vs) + rest;
    if Matched(ds) {
      OthersMerge(ds);
      assert input[0..] == input;
      DecoderReads(ds, vs, input, olds, 0, |input|);
    } else {
      CursorsAgreeIff(ds, vs, olds, rest);
    }
  }

  // The generated decoder inverts the generated encoder exactly for the full lists: those in
  // which only scalars, arrays of scalars and ofp_header members of such lists take room.
  lemma InvertsIff(ds: seq<Decl>)
    requires Known(ds)
    ensures Inverts(ds) <==> Full(ds)
  {
    hide Restores;
    hide Full;
    if Full(ds) {
      forall vs, olds, rest | Typed(ds, vs) && Typed(ds, olds) && Size(ds) <= |BytesOf(ds, vs)| + |rest|
        ensures Restores(ds, vs, olds, rest)
      {
        FullRestores(ds, vs, olds, rest);
      }
    } else {
      var vs, olds, rest := OthersFail(ds);
    }
  }

  // The same of the code as it runs: encode with just enough room, then decode.
  lemma DecodeInvertsEncode(ds: seq<Decl>, vs: seq<Value>, olds: seq<Value>, rest: seq<u8>)
    requires Known(ds) && Full(ds) && Typed(ds, vs) && Typed(ds, olds)
    ensures
      var w := Enc(Encoder(ds), vs, Size(ds));
      && w.Wrote? && w.room == 0
      && Dec(Decoder(ds), w.bytes + rest, olds, 0, |w.bytes + rest|) == Read(vs, |w.bytes|, |rest|)
  {
    EncoderRuns(ds, vs, Size(ds));
    FullRestores(ds, vs, olds, rest);
    FullIsMatched(ds);
  }

  // A list that fails: a nested structure that is no ofp_header is written and not read.
  const WITH_MATCH: seq<Decl> := [Field("uint16_t"), Struct("ofp_match", [Field("uint16_t")])]

  lemma NestedStructIsLost()
    ensures Known(WITH_MATCH) && !Full(WITH_MATCH) && !Inverts(WITH_MATCH)
    ensures EncSize(WITH_MATCH) == 4 && DecSize(WITH_MATCH) == 2
  {
    var inner := [Field("uint16_t")];
    assert inner[1..] == [];
    assert WITH_MATCH[1..] == [Struct("ofp_match", inner)];
    assert WITH_MATCH[1..][1..] == [];
    assert Size(inner) == 2 && EncSize(inner) == 2;
    InvertsIff(WITH_MATCH);
  }

  // Another: an array of structures is neither written nor read, although the cursors agree.
  const WITH_ROWS: seq<Decl> := [StructArray("ofp_bucket", [Field("uint16_t")], 1)]

  lemma RowsAreLost()
    ensures Known(WITH_ROWS) && Matched(WITH_ROWS) && !Full(WITH_ROWS) && !Inverts(WITH_ROWS)
  {
    var inner := [Field("uint16_t")];
    assert inner[1..] == [];
    assert WITH_ROWS[1..] == [];
    assert Size(inner) == 2;
    InvertsIff(WITH_ROWS);
  }
}

module Generator {
  import opened Codegen

  // The scalar members whose type the generator knows; at another it gives up.
  predicate Emittable(ds: seq<Decl>)
  {
    forall k :: 0 <= k < |ds| ==> ds[k].Field? ==> Width(ds[k].kind) > 0
  }

  // The statement for one scalar or array member; none for a structure or an array of them.
  method EmitScalar(d: Decl, i: nat) returns (ok: bool, code: seq<Stmt>)
    ensures ok <==> (d.Field? ==> Width(d.kind) > 0)
    ensures ok ==> code == ScalarStmts(d, i)
  {
    ok, code := true, [];
    match d
    case Field(kind) =>
      var w := Width(kind);
      if w == 0 {
        ok := false;
      } else {
        code := [Num(i, w)];
      }
    case Array(kind, n) =>
      var w := Width(kind);
      if w == 2 || w == 4 || w == 8 {
        code := [Nums(i, w, n)];
      } else {
        code := [Raw(i, n)];
      }
    case _ =>
  }

  lemma {:induction false} EncodeSnoc(ds: seq<Decl>, d: Decl, i: nat)
    ensures EncodeFields(ds + [d], i) == EncodeFields(ds, i) + EncodeOne(d, i + |ds|)
    decreases |ds|
  {
    hide EncodeOne;
    if ds == [] {
      assert ds + [d] == [d] && [d][1..] == [];
    } else {
      assert (ds + [d])[0] == ds[0] && (ds + [d])[1..] == ds[1..] + [d];
      EncodeSnoc(ds[1..], d, i + 1);
    }
  }

  lemma {:induction false} DecodeSnoc(ds: seq<Decl>, d: Decl, i: nat)
    ensures DecodeFields(ds + [d], i) == DecodeFields(ds, i) + DecodeOne(d, i + |ds|)
    decreases |ds|
  {
    hide DecodeOne;
    if ds == [] {
      assert ds + [d] == [d] && [d][1..] == [];
    } else {
      assert (ds + [d])[0] == ds[0] && (ds + [d])[1..] == ds[1..] + [d];
      DecodeSnoc(ds[1..], d, i + 1);
    }
  }

  // exp_generate_encoder.
  method GenerateEncoder(ds: seq<Decl>) returns (ok: bool, code: seq<Stmt>)
    ensures ok <==> Emittable(ds)
    ensures ok ==> code == Encoder(ds)
  {
    code := [Check(Size(ds))];
    ok := true;
    var k := 0;
    while k < |ds|
      invariant k <= |ds| && Emittable(ds[..k])
      invariant code == [Check(Size(ds))] + EncodeFields(ds[..k], 0)
    {
      assert ds[..k + 1] == ds[..k] + [ds[k]];
      EncodeSnoc(ds[..k], ds[k], 0);
      if ds[k].Struct? {
        code := code + [Call(k, Encoder(ds[k].decls))];
      } else {
        var known, more := EmitScalar(ds[k], k);
        if !known {
          return false, code;
        }
        code := code + more;
      }
      k := k + 1;
    }
    assert ds[..k] == ds;
  }

  // The part exp_generate_decoder and exp_generate_sneak_decoder share.
  method GenerateReads(ds: seq<Decl>) returns (ok: bool, code: seq<Stmt>)
    ensures ok <==> Emittable(ds)
    ensures ok ==> code == Decoder(ds)
  {
    code := [Check(Size(ds))];
    ok := true;
    var k := 0;
    while k < |ds|
      invariant k <= |ds| && Emittable(ds[..k])
      invariant code == [Check(Size(ds))] + DecodeFields(ds[..k], 0)
    {
      assert ds[..k + 1] == ds[..k] + [ds[k]];
      DecodeSnoc(ds[..k], ds[k], 0);
      if ds[k].Struct? {
        if ds[k].kind == "ofp_header" {
          code := code + [Call(k, Decoder(ds[k].decls))];
        }
      } else {
        var known, more := EmitScalar(ds[k], k);
        if !known {
          return false, code;
        }
        code := code + more;
      }
      k := k + 1;
    }
    assert ds[..k] == ds;
  }

  // exp_generate_sneak_decoder.
  method GenerateSneak(ds: seq<Decl>) returns (ok: bool, code: seq<Stmt>)
    ensures ok <==> Emittable(ds)
    ensures ok ==> code == Sneak(ds)
  {
    ok, code := GenerateReads(ds);
    if ok {
      code := code + [Rewind(Size(ds))];
    }
  }
}
