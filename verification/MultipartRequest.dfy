// Multipart requests: fragments that arrive interleaved are collected by transaction id and
// handed over, joined, when the last one arrives.

// The abstract table, one request at a time and over whole runs.
module Reassembly {
  import opened Bytes
  import opened Results

  // CHANNEL_SIMULTANEOUS_MULTIPART_MAX
  const SLOTS: nat := 16

  const OFPBRC_BAD_MULTIPART: u16 := 2
  const OFPBRC_IS_SLAVE: u16 := 10
  const OFPBRC_MULTIPART_BUFFER_OVERFLOW: u16 := 13

  // The fragments collected so far for one xid; all were sent with this type.
  datatype Entry = Entry(mtype: u16, parts: seq<seq<u8>>)

  type Table = map<u32, Entry>

  // What the feature and role checks say of a request before it reaches the table.
  datatype Gate = Admitted | Unsupported | IsSlave

  datatype Request = Request(xid: u32, mtype: u16, more: bool, body: seq<u8>, gate: Gate)

  datatype Outcome = Refused(code: u16) | Pending | Delivered(mtype: u16, bytes: seq<u8>)

  function Put(t: Table, xid: u32, mtype: u16, body: seq<u8>): (Code, Table)
  {
    if xid in t then
      if t[xid].mtype != mtype then (OFP_ERROR, t)
      else (OK, t[xid := Entry(mtype, t[xid].parts + [body])])
    else if |t| >= SLOTS then (NO_MEMORY, t)
    else (OK, t[xid := Entry(mtype, [body])])
  }

  function Get(t: Table, xid: u32, mtype: u16): (Code, seq<u8>, Table)
  {
    if xid in t && t[xid].mtype == mtype then (OK, Flatten(t[xid].parts), t - {xid})
    else (NOT_FOUND, [], t)
  }

  function RefusalOf(ret: Code): Outcome
  {
    Refused(if ret == NO_MEMORY then OFPBRC_MULTIPART_BUFFER_OVERFLOW else OFPBRC_BAD_MULTIPART)
  }

  // ofp_multipart_request_handle up to the call of the handler.
  function Step(t: Table, r: Request): (Table, Outcome)
  {
    match r.gate
    case Unsupported => (t, Refused(OFPBRC_BAD_MULTIPART))
    case IsSlave => (t, Refused(OFPBRC_IS_SLAVE))
    case Admitted =>
      var (ret, t') := Put(t, r.xid, r.mtype, r.body);
      if ret != OK then (t', RefusalOf(ret))
      else if r.more then (t', Pending)
      else
        var (ret', bytes, t'') := Get(t', r.xid, r.mtype);
        if ret' != OK then (t'', RefusalOf(ret')) else (t'', Delivered(r.mtype, bytes))
  }

  // A run from the empty table: the table after all requests, and the outcome of each.
  function Run(rs: seq<Request>): (res: (Table, seq<Outcome>))
    ensures |res.1| == |rs|
    decreases |rs|
  {
    if rs == [] then (map[], [])
    else
      var (t, os) := Run(rs[..|rs| - 1]);
      var (t', o) := Step(t, rs[|rs| - 1]);
      (t', os + [o])
  }

  // The requests for xid that were not refused since the last one that completed, in order
  // of arrival. This reads the history only, never the table.
  function Since(rs: seq<Request>, os: seq<Outcome>, xid: u32): seq<Request>
    requires |rs| == |os|
    decreases |rs|
  {
    if rs == [] then []
    else
      var n := |rs| - 1;
      if rs[n].xid != xid || os[n].Refused? then Since(rs[..n], os[..n], xid)
      else if rs[n].more then Since(rs[..n], os[..n], xid) + [rs[n]]
      else []
  }

  function BodiesOf(rs: seq<Request>): seq<seq<u8>>
  {
    seq(|rs|, i requires 0 <= i < |rs| => rs[i].body)
  }

  // The table holds, for every xid, exactly its history since the last completion.
  ghost predicate Tracks(t: Table, rs: seq<Request>, os: seq<Outcome>, xid: u32)
    requires |rs| == |os|
  {
    var pending := Since(rs, os, xid);
    && (xid in t <==> pending != [])
    && (xid in t ==> t[xid].parts == BodiesOf(pending))
    && (xid in t ==> forall i :: 0 <= i < |pending| ==> pending[i].mtype == t[xid].mtype)
  }

  lemma {:induction false} TableTracksHistory(rs: seq<Request>, xid: u32)
    ensures Tracks(Run(rs).0, rs, Run(rs).1, xid)
    ensures |Run(rs).0| <= SLOTS
    decreases |rs|
  {
    if rs != [] {
      var n := |rs| - 1;
      var init, r := rs[..n], rs[n];
      TableTracksHistory(init, xid);
      var (t, os) := Run(init);
      var (t', o) := Step(t, r);
      assert Run(rs).1[..n] == os && Run(rs).1[n] == o;
      StepSize(t, r);
      StepTracks(t, t', o, rs, os, xid);
    }
  }

  lemma StepSize(t: Table, r: Request)
    requires |t| <= SLOTS
    ensures |Step(t, r).0| <= SLOTS
  {
    var t' := Put(t, r.xid, r.mtype, r.body).1;
    if r.xid in t {
      assert t'.Keys == t.Keys;
    }
    assert |t'| <= SLOTS;
    assert (t' - {r.xid}).Keys <= t'.Keys;
    SubsetSize((t' - {r.xid}).Keys, t'.Keys);
  }

  lemma StepTracks(t: Table, t': Table, o: Outcome, rs: seq<Request>, os: seq<Outcome>, xid: u32)
    requires |rs| == |os| + 1 && (t', o) == Step(t, rs[|os|])
    requires Tracks(t, rs[..|os|], os, xid)
    ensures Tracks(t', rs, os + [o], xid)
  {
    var n := |os|;
    assert (os + [o])[..n] == os;
    var before, after := Since(rs[..n], os, xid), Since(rs, os + [o], xid);
    if rs[n].xid == xid && !o.Refused? && rs[n].more {
      assert BodiesOf(after) == BodiesOf(before) + [rs[n].body];
    }
  }

  // The outcome of request i is one step from the table of the requests before it.
  lemma {:induction false} RunAt(rs: seq<Request>, i: nat)
    requires i < |rs|
    ensures Run(rs).1[..i] == Run(rs[..i]).1
    ensures Run(rs).1[i] == Step(Run(rs[..i]).0, rs[i]).1
    decreases |rs|
  {
    var init := rs[..|rs| - 1];
    if i < |init| {
      RunAt(init, i);
      assert init[..i] == rs[..i];
      assert Run(rs).1[..|init|] == Run(init).1;
    }
  }

  lemma DeliveryStep(t: Table, rs: seq<Request>, os: seq<Outcome>, r: Request)
    requires |rs| == |os| && Tracks(t, rs, os, r.xid)
    ensures
      var o := Step(t, r).1;
      && (o.Delivered? <==> !o.Refused? && !r.more)
      && (o.Delivered? ==> o.mtype == r.mtype && o.bytes == Flatten(BodiesOf(Since(rs, os, r.xid) + [r])))
  {
    var pending := Since(rs, os, r.xid);
    assert BodiesOf(pending + [r]) == BodiesOf(pending) + [r.body];
    if pending == [] {
      assert BodiesOf(pending + [r]) == [r.body];
    }
  }

  // The main property: whatever arrives in between, a completed request delivers the bodies
  // of its own fragments since its last completion, joined in order of arrival.
  lemma DeliveryIsExact(rs: seq<Request>, i: nat)
    requires i < |rs|
    ensures
      var o, pending := Run(rs).1[i], Since(rs[..i], Run(rs).1[..i], rs[i].xid);
      && (o.Delivered? <==> !o.Refused? && !rs[i].more)
      && (o.Delivered? ==> o.mtype == rs[i].mtype && o.bytes == Flatten(BodiesOf(pending + [rs[i]])))
  {
    RunAt(rs, i);
    TableTracksHistory(rs[..i], rs[i].xid);
    DeliveryStep(Run(rs[..i]).0, rs[..i], Run(rs[..i]).1, rs[i]);
  }

  lemma {:induction false} OpenXidsAreKeys(rs: seq<Request>)
    ensures Run(rs).0.Keys == OpenXids(rs)
  {
    forall x: u32
      ensures x in Run(rs).0.Keys <==> x in OpenXids(rs)
    {
      TableTracksHistory(rs, x);
      SinceOccurs(rs, Run(rs).1, x);
    }
  }

  // When a fragment is refused and with which code, told from the history alone.
  lemma RefusalIsExact(rs: seq<Request>, i: nat)
    requires i < |rs|
    ensures
      var pending := Since(rs[..i], Run(rs).1[..i], rs[i].xid);
      Run(rs).1[i].Refused? <==>
        || !rs[i].gate.Admitted?
        || (pending != [] && pending[0].mtype != rs[i].mtype)
        || (pending == [] && |OpenXids(rs[..i])| >= 16)
    ensures
      var o, r := Run(rs).1[i], rs[i];
      && (o.Refused? && r.gate == IsSlave ==> o.code == 10)
      && (o.Refused? && r.gate == Unsupported ==> o.code == 2)
      && (o.Refused? && r.gate == Admitted ==>
            o.code == if Since(rs[..i], Run(rs).1[..i], r.xid) != [] then 2 else 13)
  {
    RunAt(rs, i);
    TableTracksHistory(rs[..i], rs[i].xid);
    OpenXidsAreKeys(rs[..i]);
    var t := Run(rs[..i]).0;
    hide Run;
    hide Since;
    hide OpenXids;
    hide Flatten;
    RefusedIff(t, rs[i]);
    hide Step;
    assert |t| == |t.Keys|;
  }

  lemma RefusedIff(t: Table, r: Request)
    ensures Step(t, r).1.Refused? <==>
      || !r.gate.Admitted?
      || (r.xid in t && t[r.xid].mtype != r.mtype)
      || (r.xid !in t && |t| >= 16)
    ensures
      var o := Step(t, r).1;
      && (o.Refused? && r.gate == IsSlave ==> o.code == 10)
      && (o.Refused? && r.gate == Unsupported ==> o.code == 2)
      && (o.Refused? && r.gate == Admitted ==> o.code == if r.xid in t then 2 else 13)
  {
    hide Flatten;
  }

  // The transaction ids with fragments waiting.
  function OpenXids(rs: seq<Request>): set<u32>
  {
    set j | 0 <= j < |rs| && Since(rs, Run(rs).1, rs[j].xid) != [] :: rs[j].xid
  }

  lemma {:induction false} SinceOccurs(rs: seq<Request>, os: seq<Outcome>, xid: u32)
    requires |rs| == |os|
    ensures Since(rs, os, xid) != [] ==> exists j :: 0 <= j < |rs| && rs[j].xid == xid
    decreases |rs|
  {
    if rs != [] {
      var n := |rs| - 1;
      SinceOccurs(rs[..n], os[..n], xid);
      if rs[n].xid != xid && Since(rs, os, xid) != [] {
        var j :| 0 <= j < n && rs[..n][j].xid == xid;
        assert rs[j].xid == xid;
      }
    }
  }

  // The requests for one xid, and their outcomes, taken out of a run.

  function Project(rs: seq<Request>, xid: u32): seq<Request>
    decreases |rs|
  {
    if rs == [] then []
    else
      var n := |rs| - 1;
      Project(rs[..n], xid) + if rs[n].xid == xid then [rs[n]] else []
  }

  function OutcomesFor(rs: seq<Request>, os: seq<Outcome>, xid: u32): seq<Outcome>
    requires |rs| == |os|
    decreases |rs|
  {
    if rs == [] then []
    else
      var n := |rs| - 1;
      OutcomesFor(rs[..n], os[..n], xid) + if rs[n].xid == xid then [os[n]] else []
  }

  // alone is the part of t that concerns xid.
  ghost predicate PartFor(t: Table, alone: Table, xid: u32)
  {
    alone.Keys <= {xid} && (xid in alone <==> xid in t) && (xid in t ==> alone[xid] == t[xid])
  }

  // Isolation: when nothing is refused, an xid sees the same outcomes as if it were alone.
  lemma {:induction false} XidsAreIsolated(rs: seq<Request>, xid: u32)
    requires forall i :: 0 <= i < |rs| ==> !Run(rs).1[i].Refused?
    ensures Run(Project(rs, xid)).1 == OutcomesFor(rs, Run(rs).1, xid)
    ensures PartFor(Run(rs).0, Run(Project(rs, xid)).0, xid)
    decreases |rs|
  {
    if rs != [] {
      var n := |rs| - 1;
      var init, r := rs[..n], rs[n];
      var (t, os) := Run(init);
      var (t', o) := Step(t, r);
      assert Run(rs) == (t', os + [o]);
      assert !o.Refused? by {
        assert Run(rs).1[n] == o;
      }
      assert forall i :: 0 <= i < n ==> os[i] == Run(rs).1[i];
      XidsAreIsolated(init, xid);
      assert Run(rs).1[..n] == os && Run(rs).1[n] == o;
      var alone := Project(init, xid);
      hide Step;
      if r.xid == xid {
        assert (alone + [r])[..|alone|] == alone && (alone + [r])[|alone|] == r;
        StepAlone(t, Run(alone).0, r);
      } else {
        assert Project(rs, xid) == alone + [] == alone;
        StepElsewhere(t, Run(alone).0, r, xid);
      }
    }
  }

  lemma StepAlone(t: Table, alone: Table, r: Request)
    requires PartFor(t, alone, r.xid) && !Step(t, r).1.Refused?
    ensures Step(alone, r).1 == Step(t, r).1
    ensures PartFor(Step(t, r).0, Step(alone, r).0, r.xid)
  {
    if r.xid !in alone {
      assert alone.Keys == {} && |alone| == |alone.Keys|;
    }
  }

  lemma StepElsewhere(t: Table, alone: Table, r: Request, xid: u32)
    requires PartFor(t, alone, xid) && r.xid != xid
    ensures PartFor(Step(t, r).0, alone, xid)
  {}
}

// The slot table of a channel, which implements the abstract table.
module MultipartTable {
  import opened Bytes
  import opened Results
  import opened Buffer
  import opened Reassembly

  // A received fragment: its unread bytes and its plen.
  datatype Fragment = Fragment(bytes: seq<u8>, plen: nat)

  datatype Slot = Slot(used: bool, xid: u32, mtype: u16, len: nat, frags: seq<Fragment>)

  function Parts(frags: seq<Fragment>): seq<seq<u8>>
  {
    seq(|frags|, i requires 0 <= i < |frags| => frags[i].bytes)
  }

  function Total(frags: seq<Fragment>): nat
  {
    if frags == [] then 0 else |frags[0].bytes| + Total(frags[1..])
  }

  lemma {:induction false} TotalIsLength(frags: seq<Fragment>)
    ensures |Flatten(Parts(frags))| == Total(frags)
  {
    if frags != [] {
      assert Parts(frags)[1..] == Parts(frags[1..]);
      TotalIsLength(frags[1..]);
    }
  }

  lemma {:induction false} TotalAppend(frags: seq<Fragment>, f: Fragment)
    ensures Total(frags + [f]) == Total(frags) + |f.bytes|
  {
    if frags != [] {
      assert (frags + [f])[1..] == frags[1..] + [f];
      TotalAppend(frags[1..], f);
    }
  }

  predicate SlotOk(slot: Slot)
  {
    if slot.used then slot.frags != [] && slot.len == Total(slot.frags) else slot.frags == []
  }

  predicate Distinct(s: seq<Slot>)
  {
    forall i, j :: 0 <= i < j < |s| && s[i].used && s[j].used ==> s[i].xid != s[j].xid
  }

  // The table a slot sequence stands for.
  ghost function ViewOf(s: seq<Slot>): Table
    requires Distinct(s)
  {
    map i | 0 <= i < |s| && s[i].used :: s[i].xid := Entry(s[i].mtype, Parts(s[i].frags))
  }

  function Xids(s: seq<Slot>): set<u32>
  {
    set i | 0 <= i < |s| && s[i].used :: s[i].xid
  }

  // Distinct slots hold as many transaction ids as there are used slots.
  lemma {:induction false} XidsSize(s: seq<Slot>)
    requires Distinct(s)
    ensures |Xids(s)| <= |s|
    ensures |Xids(s)| == |s| <==> forall i :: 0 <= i < |s| ==> s[i].used
  {
    if s != [] {
      var n := |s| - 1;
      var init, last := s[..n], s[n];
      assert s == init + [last];
      XidsSize(init);
      assert forall i :: 0 <= i < n ==> init[i] == s[i];
      assert Xids(s) == Xids(init) + if last.used then {last.xid} else {};
      if last.used {
        assert last.xid !in Xids(init);
      }
    }
  }

  lemma ViewSize(s: seq<Slot>)
    requires Distinct(s)
    ensures ViewOf(s).Keys == Xids(s) && |ViewOf(s)| == |Xids(s)|
  {
    assert |ViewOf(s)| == |ViewOf(s).Keys|;
  }

  lemma ViewAt(s: seq<Slot>, i: nat)
    requires Distinct(s) && i < |s| && s[i].used
    ensures s[i].xid in ViewOf(s) && ViewOf(s)[s[i].xid] == Entry(s[i].mtype, Parts(s[i].frags))
  {}

  lemma SlotOf(s: seq<Slot>, x: u32) returns (i: nat)
    requires Distinct(s) && x in ViewOf(s)
    ensures i < |s| && s[i].used && s[i].xid == x
    ensures ViewOf(s)[x] == Entry(s[i].mtype, Parts(s[i].frags))
  {
    i :| 0 <= i < |s| && s[i].used && s[i].xid == x;
  }

  // Writing a used slot at i, where no other used slot has its xid.
  lemma ViewWrite(s: seq<Slot>, i: nat, slot: Slot)
    requires i < |s| && Distinct(s) && slot.used
    requires forall j :: 0 <= j < |s| && j != i && s[j].used ==> s[j].xid != slot.xid
    requires s[i].used ==> s[i].xid == slot.xid
    ensures Distinct(s[i := slot])
    ensures ViewOf(s[i := slot]) == ViewOf(s)[slot.xid := Entry(slot.mtype, Parts(slot.frags))]
  {
    hide ViewOf;
    hide Parts;
    var t, s' := ViewOf(s), s[i := slot];
    var t' := ViewOf(s');
    ViewAt(s', i);
    forall x | x in t && x != slot.xid
      ensures x in t' && t'[x] == t[x]
    {
      var j := SlotOf(s, x);
      ViewAt(s', j);
    }
    forall x | x in t' && x != slot.xid
      ensures x in t
    {
      var j := SlotOf(s', x);
      ViewAt(s, j);
    }
  }

  // Adding a fragment to slot i, used or taken anew, puts it into the table.
  lemma ViewPut(s: seq<Slot>, i: nat, frag: Fragment, xid: u32, mtype: u16, slot: Slot)
    requires i < |s| == SLOTS && Distinct(s)
    requires forall j :: 0 <= j < |s| && j != i && s[j].used ==> s[j].xid != xid
    requires s[i].used ==> s[i].xid == xid && s[i].mtype == mtype
    requires slot.used && slot.xid == xid && slot.mtype == mtype
    requires slot.frags == (if s[i].used then s[i].frags else []) + [frag]
    ensures Distinct(s[i := slot])
    ensures (OK, ViewOf(s[i := slot])) == Put(ViewOf(s), xid, mtype, frag.bytes)
  {
    ViewWrite(s, i, slot);
    var t := ViewOf(s);
    if s[i].used {
      assert t[xid] == Entry(mtype, Parts(s[i].frags));
      assert Parts(slot.frags) == Parts(s[i].frags) + [frag.bytes];
    } else {
      ViewSize(s);
      XidsSize(s);
      assert Parts(slot.frags) == [frag.bytes];
      assert xid !in t;
    }
  }

  // Emptying slot i takes its entry out of the table.
  lemma ViewGet(s: seq<Slot>, i: nat, slot: Slot)
    requires i < |s| && Distinct(s) && s[i].used && !slot.used
    ensures Distinct(s[i := slot])
    ensures (OK, Flatten(Parts(s[i].frags)), ViewOf(s[i := slot])) == Get(ViewOf(s), s[i].xid, s[i].mtype)
  {
    ViewAt(s, i);
    hide ViewOf;
    hide Parts;
    hide Flatten;
    var t, s' := ViewOf(s), s[i := slot];
    assert Distinct(s');
    var t' := ViewOf(s');
    forall x | x in t && x != s[i].xid
      ensures x in t' && t'[x] == t[x]
    {
      var j := SlotOf(s, x);
      ViewAt(s', j);
    }
    forall x | x in t'
      ensures x in t && x != s[i].xid
    {
      var j := SlotOf(s', x);
      ViewAt(s, j);
    }
    assert t' == t - {s[i].xid};
  }

  class Channel {
    const multipart: array<Slot>

    ghost predicate Valid()
      reads this, multipart
    {
      && multipart.Length == SLOTS
      && (forall i :: 0 <= i < SLOTS ==> SlotOk(multipart[i]))
      && Distinct(multipart[..])
    }

    ghost function View(): Table
      requires Valid()
      reads this, multipart
    {
      ViewOf(multipart[..])
    }

    constructor ()
      ensures Valid() && fresh(multipart) && View() == map[]
    {
      multipart := new Slot[SLOTS](_ => Slot(false, 0, 0, 0, []));
    }

    // channel_multipart_put. Every buffer that reaches it holds exactly plen unread bytes.
    method Put(frag: Fragment, xid: u32, mtype: u16) returns (ret: Code)
      requires Valid() && frag.plen == |frag.bytes|
      modifies multipart
      ensures Valid()
      ensures (ret, View()) == Reassembly.Put(old(View()), xid, mtype, frag.bytes)
    {
      ghost var s := multipart[..];
      var i := 0;
      var m := -1;
      while i < SLOTS
        invariant 0 <= i <= SLOTS && multipart[..] == s
        invariant forall j :: 0 <= j < i && s[j].used ==> s[j].xid != xid
        invariant if m == -1 then forall j :: 0 <= j < i ==> s[j].used else 0 <= m < i && !s[m].used
      {
        if !multipart[i].used {
          m := i;
        } else if multipart[i].xid == xid {
          if multipart[i].mtype != mtype {
            assert xid in ViewOf(s);
            return OFP_ERROR;
          }
          var slot := multipart[i];
          TotalAppend(slot.frags, frag);
          slot := slot.(len := slot.len + frag.plen, frags := slot.frags + [frag]);
          ViewPut(s, i, frag, xid, mtype, slot);
          multipart[i] := slot;
          assert multipart[..] == s[i := slot];
          return OK;
        }
        i := i + 1;
      }
      if m == -1 {
        ViewSize(s);
        XidsSize(s);
        return NO_MEMORY;
      }
      var slot := multipart[m].(xid := xid, mtype := mtype, len := frag.plen, used := true,
                                frags := multipart[m].frags + [frag]);
      assert slot.frags == [frag] && Total([frag]) == |frag.bytes| + Total([frag][1..]);
      ViewPut(s, m, frag, xid, mtype, slot);
      multipart[m] := slot;
      assert multipart[..] == s[m := slot];
      return OK;
    }

    // channel_multipart_get: the fragments of one xid, joined in a buffer of their total
    // length. The copy never runs out of room.
    method Get(xid: u32, mtype: u16) returns (ret: Code, dst: Pbuf)
      requires Valid()
      modifies multipart
      ensures Valid()
      ensures fresh(dst) && dst.Readable() && dst.getp + dst.plen == dst.putp
      ensures (ret, dst.Rest(), View()) == Reassembly.Get(old(View()), xid, mtype)
    {
      ghost var s := multipart[..];
      var i := 0;
      while i < SLOTS && !(multipart[i].used && multipart[i].xid == xid && multipart[i].mtype == mtype)
        invariant 0 <= i <= SLOTS
        invariant forall j :: 0 <= j < i ==> !(s[j].used && s[j].xid == xid && s[j].mtype == mtype)
      {
        i := i + 1;
      }
      if i == SLOTS {
        dst := new Pbuf.Alloc(0);
        return NOT_FOUND, dst;
      }
      dst := new Pbuf.Alloc(multipart[i].len);
      ret := Drain(i, dst);
      multipart[i] := multipart[i].(used := false);
      ViewGet(s, i, multipart[i]);
      assert multipart[..] == s[i := multipart[i]];
    }

    // The copy loop of channel_multipart_get: take fragments off the slot one by one.
    method Drain(i: nat, dst: Pbuf) returns (ret: Code)
      requires i < multipart.Length && SlotOk(multipart[i]) && multipart[i].used
      requires dst.Valid() && dst.Cursor() == Cursors(0, 0, 0) && multipart[i].len <= dst.size
      modifies multipart, dst
      ensures ret == OK
      ensures multipart[..] == old(multipart[..])[i := old(multipart[i]).(frags := [])]
      ensures dst.Valid() && dst.Unread() == Flatten(Parts(old(multipart[i]).frags))
      ensures dst.Readable() && dst.Rest() == dst.Unread()
    {
      ghost var all := multipart[i].frags;
      ghost var k := 0;
      ret := OK;
      TotalIsLength(all);
      assert Parts(all)[..0] == [];
      while multipart[i].frags != []
        invariant ret == OK && 0 <= k <= |all| && multipart[i].frags == all[k..]
        invariant multipart[..] == old(multipart[..])[i := old(multipart[i]).(frags := all[k..])]
        invariant dst.Valid() && dst.getp == 0 && dst.plen == dst.putp
        invariant dst.Written() == Flatten(Parts(all)[..k])
        decreases |all| - k
      {
        var p := multipart[i].frags[0];
        multipart[i] := multipart[i].(frags := multipart[i].frags[1..]);
        assert Parts(all) == Parts(all)[..k] + ([p.bytes] + Parts(all)[k + 1..]);
        FlattenConcat(Parts(all)[..k], [p.bytes] + Parts(all)[k + 1..]);
        FlattenAppend(Parts(all)[..k], p.bytes);
        assert Parts(all)[..k + 1] == Parts(all)[..k] + [p.bytes];
        ret := dst.Copy(p.bytes);
        k := k + 1;
      }
      assert Parts(all)[..k] == Parts(all);
    }

    // ofp_multipart_request_handle: put, then get when the fragment is the last one.
    method RequestHandle(r: Request) returns (o: Outcome)
      requires Valid()
      modifies multipart
      ensures Valid()
      ensures (View(), o) == Step(old(View()), r)
    {
      if r.gate == Unsupported {
        return Refused(OFPBRC_BAD_MULTIPART);
      }
      if r.gate == IsSlave {
        return Refused(OFPBRC_IS_SLAVE);
      }
      var ret := Put(Fragment(r.body, |r.body|), r.xid, r.mtype);
      if ret != OK {
        return Refused(if ret == NO_MEMORY then OFPBRC_MULTIPART_BUFFER_OVERFLOW else OFPBRC_BAD_MULTIPART);
      }
      if r.more {
        return Pending;
      }
      var all;
      ret, all := Get(r.xid, r.mtype);
      if ret != OK {
        return Refused(if ret == NO_MEMORY then OFPBRC_MULTIPART_BUFFER_OVERFLOW else OFPBRC_BAD_MULTIPART);
      }
      return Delivered(r.mtype, all.Rest());
    }
  }
}
