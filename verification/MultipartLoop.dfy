// Fragmentation and reassembly undo each other: a reply sent back as request fragments, in
// any channel that has room for it, is delivered as the concatenation of its entries.

module MultipartLoop {
  import opened Bytes
  import opened ReplyPacking
  import opened Reassembly

  // The messages of a reply, received as fragments.
  function AsRequests(ms: seq<Message>): seq<Request>
  {
    seq(|ms|, i requires 0 <= i < |ms| =>
      Request(ms[i].head.ofp.xid, ms[i].head.mpType, ms[i].head.flags != 0, ms[i].body, Admitted))
  }

  // t holds parts for xid, or has room for it when there are none yet.
  ghost predicate Collected(t: Table, xid: u32, mtype: u16, parts: seq<seq<u8>>)
  {
    if parts == [] then xid !in t && |t| < SLOTS else xid in t && t[xid] == Entry(mtype, parts)
  }

  lemma CollectStep(t: Table, r: Request, parts: seq<seq<u8>>)
    requires Collected(t, r.xid, r.mtype, parts) && r.gate.Admitted?
    ensures
      var (t', o) := Step(t, r);
      if r.more then Collected(t', r.xid, r.mtype, parts + [r.body])
      else o == Delivered(r.mtype, Flatten(parts + [r.body]))
  {
    if parts == [] {
      assert parts + [r.body] == [r.body];
    }
  }

  lemma RunSnoc(rs: seq<Request>, r: Request)
    ensures
      var (t, o) := Step(Run(rs).0, r);
      Run(rs + [r]) == (t, Run(rs).1 + [o])
  {
    assert (rs + [r])[..|rs|] == rs;
  }

  // One reply: same xid and type throughout, and marked as continued up to the last message.
  ghost predicate OneReply(ms: seq<Message>, xid: u32, mtype: u16)
  {
    ms != [] && forall i :: 0 <= i < |ms| ==>
      ms[i].head.ofp.xid == xid && ms[i].head.mpType == mtype && (ms[i].head.flags != 0 <==> i < |ms| - 1)
  }

  // All fragments before the last one are collected.
  lemma {:induction false} Collect(rs: seq<Request>, ms: seq<Message>, xid: u32, mtype: u16, k: nat)
    requires k < |ms| && OneReply(ms, xid, mtype) && Collected(Run(rs).0, xid, mtype, [])
    ensures Collected(Run(rs + AsRequests(ms)[..k]).0, xid, mtype, Bodies(ms)[..k])
    decreases k
  {
    hide Run;
    var reqs := AsRequests(ms);
    if k == 0 {
      assert rs + reqs[..0] == rs && Bodies(ms)[..0] == [];
    } else {
      Collect(rs, ms, xid, mtype, k - 1);
      var sofar, r := rs + reqs[..k - 1], reqs[k - 1];
      CollectStep(Run(sofar).0, r, Bodies(ms)[..k - 1]);
      hide Step;
      RunSnoc(sofar, r);
      assert rs + reqs[..k] == sofar + [r];
      assert Bodies(ms)[..k] == Bodies(ms)[..k - 1] + [r.body];
    }
  }

  lemma FragmentsAreDelivered(rs: seq<Request>, ms: seq<Message>, xid: u32, mtype: u16)
    requires OneReply(ms, xid, mtype) && Collected(Run(rs).0, xid, mtype, [])
    ensures
      var os := Run(rs + AsRequests(ms)).1;
      os[|os| - 1] == Delivered(mtype, Flatten(Bodies(ms)))
  {
    hide Run;
    var n, reqs := |ms| - 1, AsRequests(ms);
    var sofar, r := rs + reqs[..n], reqs[n];
    Collect(rs, ms, xid, mtype, n);
    CollectStep(Run(sofar).0, r, Bodies(ms)[..n]);
    hide Step;
    RunSnoc(sofar, r);
    assert rs + reqs == sofar + [r];
    assert Bodies(ms) == Bodies(ms)[..n] + [r.body];
  }

  lemma RenderedIsOneReply(base: ReplyHeader, groups: seq<seq<seq<u8>>>)
    requires groups != [] && Fits(groups)
    ensures OneReply(Render(base, groups), base.ofp.xid, base.mpType)
  {}

  // The round trip, for every list of entries that can be sent and every earlier history.
  lemma ReplyReassembles(rs: seq<Request>, base: ReplyHeader, entries: seq<seq<u8>>)
    requires AllFit(entries)
    requires base.ofp.xid !in Run(rs).0 && |Run(rs).0| < SLOTS
    ensures Fits(Pack(entries))
    ensures
      var os := Run(rs + AsRequests(Render(base, Pack(entries)))).1;
      os != [] && os[|os| - 1] == Delivered(base.mpType, Flatten(entries))
  {
    hide Pack;
    hide Run;
    hide Flatten;
    hide Render;
    hide Fits;
    RenderedReplyCarries(base, entries);
    RenderedIsOneReply(base, Pack(entries));
    hide OneReply;
    FragmentsAreDelivered(rs, Render(base, Pack(entries)), base.ofp.xid, base.mpType);
  }
}
