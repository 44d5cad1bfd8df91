// The channel manager's two tables: channels by name, and per dpid the list of attached
// channels with the counter its channel ids come from. The list of dpid 0 holds the destroyed
// channels that wait to be freed.

module ChannelTables {
  import opened Bytes
  import opened Results

  const UNUSED_DPID: u64 := 0

  datatype ChannelList<H> = ChannelList(members: seq<H>, idMax: nat)

  // at and ids hold the dpid and the channel id of every channel in memory.
  datatype State<H> =
    State(names: map<string, H>, at: map<H, u64>, ids: map<H, nat>, lists: map<u64, ChannelList<H>>)

  function Start<H>(): State<H>
  {
    State(map[], map[], map[], map[UNUSED_DPID := ChannelList([], 0)])
  }

  // LIST_REMOVE.
  function Remove<H(==)>(s: seq<H>, h: H): seq<H>
  {
    if s == [] then [] else if s[0] == h then s[1..] else [s[0]] + Remove(s[1..], h)
  }

  function ListOf<H>(s: State<H>, d: u64): ChannelList<H>
  {
    if d in s.lists then s.lists[d] else ChannelList([], 0)
  }

  // channel_add_internal, for the newly allocated channel h.
  function Create<H>(s: State<H>, name: string, h: H): (State<H>, Code)
  {
    if name in s.names then (s, ALREADY_EXISTS)
    else (s.(names := s.names[name := h], at := s.at[h := UNUSED_DPID], ids := s.ids[h := 0]), OK)
  }

  function Attach<H>(s: State<H>, h: H, d: u64): State<H>
  {
    var l := ListOf(s, d);
    s.(at := s.at[h := d], ids := s.ids[h := l.idMax],
       lists := s.lists[d := ChannelList([h] + l.members, l.idMax + 1)])
  }

  function Detach<H>(s: State<H>, h: H): State<H>
    requires h in s.at
  {
    var l := ListOf(s, s.at[h]);
    s.(at := s.at[h := UNUSED_DPID], lists := s.lists[s.at[h] := l.(members := Remove(l.members, h))])
  }

  // channel_set_dpid; alive is what channel_is_alive says of the channel.
  function SetDpid<H>(s: State<H>, name: string, d: u64, alive: bool): (State<H>, Code)
    requires NamesOk(s)
  {
    if d == UNUSED_DPID then (s, INVALID_ARGS)
    else if name !in s.names then (s, NOT_FOUND)
    else if s.at[s.names[name]] != UNUSED_DPID || alive then (s, BUSY)
    else (Attach(s, s.names[name], d), OK)
  }

  // channel_unset_dpid.
  function UnsetDpid<H>(s: State<H>, name: string, alive: bool): (State<H>, Code)
    requires NamesOk(s)
  {
    if name !in s.names then (s, NOT_FOUND)
    else if alive then (s, BUSY)
    else if s.at[s.names[name]] == UNUSED_DPID then (s, OK)
    else (Detach(s, s.names[name]), OK)
  }

  // The channel joins the free list.
  function Retire<H>(s: State<H>, h: H): State<H>
  {
    var l := ListOf(s, UNUSED_DPID);
    s.(lists := s.lists[UNUSED_DPID := l.(members := [h] + l.members)])
  }

  // channel_delete_internal: the channel is disabled first, so its dpid can be reset.
  function Destroy<H>(s: State<H>, name: string): State<H>
    requires NamesOk(s)
  {
    if name !in s.names then s
    else
      var h := s.names[name];
      var t := s.(names := s.names - {name});
      Retire(if t.at[h] != UNUSED_DPID then Detach(t, h) else t, h)
  }

  // periodical_channel_entry_free, for a channel of the free list that is not busy.
  function Reap<H>(s: State<H>, h: H): State<H>
  {
    var l := ListOf(s, UNUSED_DPID);
    if h in l.members then
      s.(at := s.at - {h}, ids := s.ids - {h}, lists := s.lists[UNUSED_DPID := l.(members := Remove(l.members, h))])
    else s
  }

  // channel_mgr_channel_lookup_by_channel_id: the members of the list with that id.
  ghost predicate Finds<H>(s: State<H>, d: u64, id: nat, h: H)
  {
    d in s.lists && h in s.lists[d].members && h in s.ids && s.ids[h] == id
  }

  predicate NoDup<H(==)>(s: seq<H>)
  {
    forall i, j :: 0 <= i < j < |s| ==> s[i] != s[j]
  }

  ghost predicate Named<H>(s: State<H>, h: H)
  {
    exists n <- s.names :: s.names[n] == h
  }

  // A channel with a dpid has a name and is in that dpid's list. One without has a name or is
  // in the free list, not both.
  ghost predicate HandleOk<H>(s: State<H>, h: H)
    requires h in s.at
  {
    && h in s.ids
    && (if s.at[h] != UNUSED_DPID then Named(s, h) && h in ListOf(s, s.at[h]).members
        else (Named(s, h) <==> h !in ListOf(s, UNUSED_DPID).members))
  }

  // A list holds channels of its dpid, once each, and their ids are distinct and were all
  // given out.
  ghost predicate ListOk<H>(s: State<H>, d: u64)
    requires d in s.lists
  {
    var l := s.lists[d];
    && NoDup(l.members)
    && (forall h <- l.members :: h in s.at && s.at[h] == d && h in s.ids)
    && (d != UNUSED_DPID ==> forall h <- l.members :: s.ids[h] < l.idMax)
    && (d != UNUSED_DPID ==> forall g, h :: g in l.members && h in l.members && s.ids[g] == s.ids[h] ==> g == h)
  }

  ghost predicate NamesOk<H>(s: State<H>)
  {
    && (forall n <- s.names :: s.names[n] in s.at)
    && (forall m, n :: m in s.names && n in s.names && s.names[m] == s.names[n] ==> m == n)
  }

  ghost predicate Consistent<H>(s: State<H>)
  {
    && UNUSED_DPID in s.lists && NamesOk(s)
    && (forall h <- s.at :: HandleOk(s, h))
    && (forall d <- s.lists :: ListOk(s, d))
  }

  // Where the walk that looks for h stands after i steps.
  lemma {:induction false} RemoveAt<H>(s: seq<H>, h: H, i: nat)
    requires i < |s| && s[i] == h && h !in s[..i]
    ensures Remove(s, h) == s[..i] + s[i + 1..]
  {
    if i > 0 {
      assert s[0] in s[..i];
      assert s[1..][..i - 1] == s[..i][1..];
      RemoveAt(s[1..], h, i - 1);
      assert s[..i] == [s[0]] + s[1..][..i - 1];
      assert s[1..][i..] == s[i + 1..];
    } else {
      assert s[..0] == [];
    }
  }

  lemma {:induction false} RemoveOnce<H>(s: seq<H>, h: H)
    requires NoDup(s)
    ensures NoDup(Remove(s, h))
    ensures forall x <- Remove(s, h) :: x in s && x != h
    ensures forall x <- s :: x == h || x in Remove(s, h)
  {
    if s != [] {
      assert s == [s[0]] + s[1..];
      RemoveOnce(s[1..], h);
      var r := Remove(s[1..], h);
      assert s[0] !in s[1..];
      assert forall j :: 0 <= j < |r| ==> r[j] in r;
    }
  }

  // Two states whose tables differ in names only at one name.
  lemma NamedApart<H>(s: State<H>, t: State<H>, name: string, g: H)
    requires s.names - {name} == t.names - {name}
    requires name in s.names ==> s.names[name] != g
    requires name in t.names ==> t.names[name] != g
    ensures Named(s, g) <==> Named(t, g)
  {
    if Named(s, g) {
      var n :| n in s.names && s.names[n] == g;
      assert n in s.names - {name};
      assert t.names[n] == g;
    }
    if Named(t, g) {
      var n :| n in t.names && t.names[n] == g;
      assert n in t.names - {name};
      assert s.names[n] == g;
    }
  }

  lemma HandleSame<H>(s: State<H>, t: State<H>, g: H)
    requires g in s.at && g in t.at && HandleOk(s, g)
    requires t.at[g] == s.at[g] && g in t.ids && (Named(s, g) <==> Named(t, g))
    requires g in ListOf(s, s.at[g]).members <==> g in ListOf(t, s.at[g]).members
    ensures HandleOk(t, g)
  {
  }

  lemma CreateOther<H>(s: State<H>, name: string, h: H, g: H)
    requires g in s.at && HandleOk(s, g) && h !in s.at && name !in s.names
    ensures g in Create(s, name, h).0.at && HandleOk(Create(s, name, h).0, g)
  {
    hide HandleOk;
    hide Named;
    var t := Create(s, name, h).0;
    assert s.names - {name} == t.names - {name};
    NamedApart(s, t, name, g);
    assert g in s.ids by {
      InIds(s, g);
    }
    HandleSame(s, t, g);
  }

  lemma InIds<H>(s: State<H>, g: H)
    requires g in s.at && HandleOk(s, g)
    ensures g in s.ids
  {
  }

  lemma CreateHandles<H>(s: State<H>, name: string, h: H)
    requires Consistent(s) && h !in s.at && name !in s.names
    ensures forall g <- Create(s, name, h).0.at :: HandleOk(Create(s, name, h).0, g)
  {
    var t := Create(s, name, h).0;
    assert ListOk(s, UNUSED_DPID);
    hide ListOk;
    assert t.names[name] == h;
    assert HandleOk(t, h);
    forall g | g in s.at
      ensures HandleOk(t, g)
    {
      hide HandleOk;
      hide NamesOk;
      CreateOther(s, name, h, g);
    }
  }

  // A list that loses members, none of which changes, stays in order.
  lemma ShrunkList<H>(s: State<H>, t: State<H>, e: u64)
    requires e in s.lists && e in t.lists && ListOk(s, e)
    requires NoDup(t.lists[e].members) && t.lists[e].idMax == s.lists[e].idMax
    requires forall g <- t.lists[e].members :: g in s.lists[e].members
    requires forall g <- t.lists[e].members :: g in t.at && t.at[g] == s.at[g] && g in t.ids && t.ids[g] == s.ids[g]
    ensures ListOk(t, e)
  {
  }

  lemma CreateLists<H>(s: State<H>, name: string, h: H)
    requires Consistent(s) && h !in s.at && name !in s.names
    ensures forall d <- Create(s, name, h).0.lists :: ListOk(Create(s, name, h).0, d)
  {
    hide HandleOk;
    hide NamesOk;
    var t := Create(s, name, h).0;
    forall d | d in t.lists
      ensures ListOk(t, d)
    {
      assert ListOk(s, d) && h !in s.lists[d].members;
      hide ListOk;
      ShrunkList(s, t, d);
    }
  }

  lemma CreateNames<H>(s: State<H>, name: string, h: H)
    requires NamesOk(s) && h !in s.at && name !in s.names
    ensures NamesOk(Create(s, name, h).0)
  {
  }

  lemma CreateKeeps<H>(s: State<H>, name: string, h: H)
    requires Consistent(s) && h !in s.at
    ensures Consistent(Create(s, name, h).0)
  {
    if name !in s.names {
      hide NamesOk;
      hide HandleOk;
      hide ListOk;
      CreateNames(s, name, h);
      CreateLists(s, name, h);
      CreateHandles(s, name, h);
    }
  }

  // What attaching and detaching do to one list.
  lemma AttachLists<H>(s: State<H>, h: H, d: u64)
    requires Consistent(s) && h in s.at && s.at[h] == UNUSED_DPID && d != UNUSED_DPID
    requires h !in ListOf(s, UNUSED_DPID).members
    ensures forall e <- Attach(s, h, d).lists :: ListOk(Attach(s, h, d), e)
  {
    var t := Attach(s, h, d);
    forall e | e in t.lists
      ensures ListOk(t, e)
    {
      assert e in s.lists ==> ListOk(s, e);
      if e != d {
        assert h !in t.lists[e].members;
      }
    }
  }

  lemma AttachKeeps<H>(s: State<H>, h: H, d: u64)
    requires Consistent(s) && h in s.at && s.at[h] == UNUSED_DPID && d != UNUSED_DPID && Named(s, h)
    ensures Consistent(Attach(s, h, d))
  {
    assert HandleOk(s, h);
    AttachLists(s, h, d);
    var t := Attach(s, h, d);
    forall g | g in t.at
      ensures HandleOk(t, g)
    {
      assert HandleOk(s, g);
      assert Named(t, g) <==> Named(s, g);
    }
  }

  lemma DetachLists<H>(s: State<H>, h: H)
    requires Consistent(s) && h in s.at && s.at[h] != UNUSED_DPID
    ensures forall e <- Detach(s, h).lists :: ListOk(Detach(s, h), e)
    ensures forall g <- ListOf(s, s.at[h]).members :: g == h || g in ListOf(Detach(s, h), s.at[h]).members
  {
    var t, d := Detach(s, h), s.at[h];
    assert HandleOk(s, h);
    assert ListOk(s, d);
    RemoveOnce(s.lists[d].members, h);
    forall e | e in t.lists
      ensures ListOk(t, e)
    {
      assert ListOk(s, e);
      if e == d {
        assert t.lists[e].members == Remove(s.lists[d].members, h);
      } else {
        assert t.lists[e] == s.lists[e] && h !in s.lists[e].members;
      }
      hide ListOk;
      ShrunkList(s, t, e);
    }
  }

  lemma DetachKeeps<H>(s: State<H>, h: H)
    requires Consistent(s) && h in s.at && s.at[h] != UNUSED_DPID
    ensures Consistent(Detach(s, h))
  {
    DetachLists(s, h);
    var t := Detach(s, h);
    forall g | g in t.at
      ensures HandleOk(t, g)
    {
      assert HandleOk(s, g);
      assert Named(t, g) <==> Named(s, g);
      assert ListOk(s, UNUSED_DPID);
    }
  }

  lemma RetireHandles<H>(s: State<H>, name: string)
    requires Consistent(s) && name in s.names && s.at[s.names[name]] == UNUSED_DPID
    ensures
      var t := Retire(s.(names := s.names - {name}), s.names[name]);
      NamesOk(t) && forall g <- t.at :: HandleOk(t, g)
  {
    hide ListOk;
    var h := s.names[name];
    var t := Retire(s.(names := s.names - {name}), h);
    assert HandleOk(t, h);
    assert s.names - {name} == t.names - {name};
    forall g | g in t.at && g != h
      ensures HandleOk(t, g)
    {
      assert HandleOk(s, g);
      hide HandleOk;
      NamedApart(s, t, name, g);
      HandleSame(s, t, g);
    }
  }

  // A channel without dpid loses its name and joins the free list.
  lemma RetireKeeps<H>(s: State<H>, name: string)
    requires Consistent(s) && name in s.names && s.at[s.names[name]] == UNUSED_DPID
    ensures Consistent(Retire(s.(names := s.names - {name}), s.names[name]))
  {
    var h := s.names[name];
    var t := Retire(s.(names := s.names - {name}), h);
    RetireHandles(s, name);
    assert HandleOk(s, h);
    assert Named(s, h);
    hide HandleOk;
    forall e | e in t.lists
      ensures ListOk(t, e)
    {
      assert ListOk(s, e);
    }
  }

  lemma DestroyKeeps<H>(s: State<H>, name: string)
    requires Consistent(s)
    ensures Consistent(Destroy(s, name))
  {
    if name in s.names {
      var h := s.names[name];
      if s.at[h] == UNUSED_DPID {
        RetireKeeps(s, name);
      } else {
        DetachKeeps(s, h);
        RetireKeeps(Detach(s, h), name);
      }
    }
  }

  lemma ReapLists<H>(s: State<H>, h: H)
    requires Consistent(s) && h in s.lists[UNUSED_DPID].members
    ensures forall e <- Reap(s, h).lists :: ListOk(Reap(s, h), e)
    ensures forall g <- s.lists[UNUSED_DPID].members :: g == h || g in Reap(s, h).lists[UNUSED_DPID].members
    ensures forall g <- Reap(s, h).lists[UNUSED_DPID].members :: g in s.lists[UNUSED_DPID].members
  {
    hide HandleOk;
    var l, t := s.lists[UNUSED_DPID], Reap(s, h);
    assert ListOk(s, UNUSED_DPID);
    RemoveOnce(l.members, h);
    forall e | e in t.lists
      ensures ListOk(t, e)
    {
      assert ListOk(s, e);
      if e == UNUSED_DPID {
        assert t.lists[e].members == Remove(l.members, h);
      } else {
        assert t.lists[e] == s.lists[e] && h !in s.lists[e].members;
      }
      hide ListOk;
      ShrunkList(s, t, e);
    }
  }

  lemma ReapHandles<H>(s: State<H>, h: H)
    requires Consistent(s) && h in s.lists[UNUSED_DPID].members
    ensures NamesOk(Reap(s, h)) && forall g <- Reap(s, h).at :: HandleOk(Reap(s, h), g)
  {
    var t := Reap(s, h);
    ReapLists(s, h);
    assert ListOk(s, UNUSED_DPID);
    assert HandleOk(s, h) && !Named(s, h);
    hide ListOk;
    forall g | g in t.at
      ensures HandleOk(t, g)
    {
      assert HandleOk(s, g);
      assert Named(t, g) <==> Named(s, g);
      hide HandleOk;
      HandleSame(s, t, g);
    }
  }

  lemma ReapKeeps<H>(s: State<H>, h: H)
    requires Consistent(s)
    ensures Consistent(Reap(s, h))
  {
    hide HandleOk;
    hide ListOk;
    if h in ListOf(s, UNUSED_DPID).members {
      ReapLists(s, h);
      ReapHandles(s, h);
    }
  }

  datatype Op<H> =
    | DoCreate(name: string, handle: H)
    | DoSetDpid(name: string, dpid: u64, alive: bool)
    | DoUnsetDpid(name: string, alive: bool)
    | DoDestroy(name: string)
    | DoReap(handle: H)

  function Apply<H>(s: State<H>, op: Op<H>): State<H>
    requires NamesOk(s)
  {
    match op
    case DoCreate(name, h) => Create(s, name, h).0
    case DoSetDpid(name, d, alive) => SetDpid(s, name, d, alive).0
    case DoUnsetDpid(name, alive) => UnsetDpid(s, name, alive).0
    case DoDestroy(name) => Destroy(s, name)
    case DoReap(h) => Reap(s, h)
  }

  lemma ApplyKeeps<H>(s: State<H>, op: Op<H>)
    requires Consistent(s) && (op.DoCreate? ==> op.handle !in s.at)
    ensures Consistent(Apply(s, op))
  {
    match op
    case DoCreate(name, h) => CreateKeeps(s, name, h);
    case DoSetDpid(name, d, alive) =>
      if SetDpid(s, name, d, alive).1 == OK {
        AttachKeeps(s, s.names[name], d);
      }
    case DoUnsetDpid(name, alive) =>
      if name in s.names && !alive && s.at[s.names[name]] != UNUSED_DPID {
        DetachKeeps(s, s.names[name]);
      }
    case DoDestroy(name) => DestroyKeeps(s, name);
    case DoReap(h) => ReapKeeps(s, h);
  }

  // The operations run one after another; a created channel is one that is not in memory yet.
  ghost predicate Proper<H>(s: State<H>, ops: seq<Op<H>>)
    requires Consistent(s)
    decreases |ops|
  {
    ops == [] ||
    (&& (ops[0].DoCreate? ==> ops[0].handle !in s.at)
     && (ApplyKeeps(s, ops[0]); Proper(Apply(s, ops[0]), ops[1..])))
  }

  ghost function RunAll<H>(s: State<H>, ops: seq<Op<H>>): State<H>
    requires Consistent(s) && Proper(s, ops)
    decreases |ops|
  {
    if ops == [] then s else ApplyKeeps(s, ops[0]); RunAll(Apply(s, ops[0]), ops[1..])
  }

  lemma StartConsistent<H>()
    ensures Consistent(Start<H>())
  {
  }

  // Every run of the operations keeps the two tables consistent.
  lemma {:induction false} RunKeeps<H>(s: State<H>, ops: seq<Op<H>>)
    requires Consistent(s) && Proper(s, ops)
    ensures Consistent(RunAll(s, ops))
    decreases |ops|
  {
    hide HandleOk;
    hide ListOk;
    hide Apply;
    if ops != [] {
      ApplyKeeps(s, ops[0]);
      RunKeeps(Apply(s, ops[0]), ops[1..]);
    }
  }

  lemma InMemory<H>(s: State<H>, name: string)
    requires Consistent(s) && name in s.names
    ensures s.names[name] in s.at && s.names[name] in s.ids
    ensures
      var d := s.at[s.names[name]];
      d != UNUSED_DPID ==> d in s.lists && s.names[name] in s.lists[d].members
    ensures UNUSED_DPID in s.lists
  {
    assert HandleOk(s, s.names[name]);
  }

  lemma MembersInMemory<H>(s: State<H>, d: u64)
    requires Consistent(s) && d in s.lists
    ensures forall h <- s.lists[d].members :: h in s.at && h in s.ids
  {
    assert ListOk(s, d);
  }

  lemma FreeListStays<H>(s: State<H>, h: H)
    requires h in s.at && UNUSED_DPID in s.lists && s.at[h] != UNUSED_DPID
    ensures UNUSED_DPID in Detach(s, h).lists
  {
  }

  // In a consistent state a named channel is in exactly the list of its dpid, and an unnamed
  // one in exactly the free list.
  lemma InExactlyOneList<H>(s: State<H>, h: H, d: u64)
    requires Consistent(s) && h in s.at
    ensures h in ListOf(s, d).members <==>
      if Named(s, h) then d == s.at[h] && d != UNUSED_DPID else d == UNUSED_DPID
  {
    assert HandleOk(s, h);
    if d in s.lists {
      assert ListOk(s, d);
    }
  }

  // The id a channel was given on dpid d belongs to that channel alone, now and later.
  ghost predicate Owned<H>(s: State<H>, d: u64, id: nat, h: H)
  {
    && d in s.lists && id < s.lists[d].idMax
    && forall g <- s.lists[d].members :: g in s.ids && s.ids[g] == id ==> g == h
  }

  lemma OwnedApart<H>(s: State<H>, t: State<H>, d: u64, id: nat, h: H)
    requires Owned(s, d, id, h) && d in t.lists && t.lists[d].idMax == s.lists[d].idMax
    requires forall g <- t.lists[d].members :: g in s.lists[d].members
    requires forall g <- t.lists[d].members :: g in s.ids && g in t.ids && t.ids[g] == s.ids[g]
    ensures Owned(t, d, id, h)
  {
  }

  lemma OwnedCreate<H>(s: State<H>, name: string, x: H, d: u64, id: nat, h: H)
    requires Consistent(s) && x !in s.at && Owned(s, d, id, h)
    ensures Owned(Create(s, name, x).0, d, id, h)
  {
    assert ListOk(s, d);
    hide HandleOk;
    OwnedApart(s, Create(s, name, x).0, d, id, h);
  }

  lemma OwnedAttach<H>(s: State<H>, x: H, e: u64, d: u64, id: nat, h: H)
    requires Consistent(s) && x in s.at && s.at[x] == UNUSED_DPID && d != UNUSED_DPID && Owned(s, d, id, h)
    ensures Owned(Attach(s, x, e), d, id, h)
  {
    assert ListOk(s, d);
    hide HandleOk;
    hide NamesOk;
  }

  lemma OwnedDetach<H>(s: State<H>, x: H, d: u64, id: nat, h: H)
    requires d in s.lists && ListOk(s, d) && x in s.at && d != UNUSED_DPID && Owned(s, d, id, h)
    ensures Owned(Detach(s, x), d, id, h)
  {
    RemoveOnce(s.lists[d].members, x);
    OwnedApart(s, Detach(s, x), d, id, h);
  }

  lemma OwnedStep<H>(s: State<H>, op: Op<H>, d: u64, id: nat, h: H)
    requires Consistent(s) && (op.DoCreate? ==> op.handle !in s.at)
    requires d != UNUSED_DPID && Owned(s, d, id, h)
    ensures Owned(Apply(s, op), d, id, h)
  {
    assert ListOk(s, d);
    hide HandleOk;
    hide ListOk;
    hide Attach;
    hide Detach;
    match op
    case DoCreate(name, x) => OwnedCreate(s, name, x, d, id, h);
    case DoSetDpid(name, e, alive) =>
      if SetDpid(s, name, e, alive).1 == OK {
        OwnedAttach(s, s.names[name], e, d, id, h);
      }
    case DoUnsetDpid(name, alive) =>
      if name in s.names {
        OwnedDetach(s, s.names[name], d, id, h);
      }
    case DoDestroy(name) =>
      if name in s.names {
        OwnedDetach(s, s.names[name], d, id, h);
        OwnedDestroy(s, name, d, id, h);
      }
    case DoReap(x) => OwnedReap(s, x, d, id, h);
  }

  lemma OwnedDestroy<H>(s: State<H>, name: string, d: u64, id: nat, h: H)
    requires NamesOk(s) && name in s.names && d != UNUSED_DPID
    requires Owned(s, d, id, h) && Owned(Detach(s, s.names[name]), d, id, h)
    ensures Owned(Destroy(s, name), d, id, h)
  {
    hide Remove;
  }

  lemma OwnedReap<H>(s: State<H>, x: H, d: u64, id: nat, h: H)
    requires Consistent(s) && d != UNUSED_DPID && Owned(s, d, id, h)
    ensures Owned(Reap(s, x), d, id, h)
  {
    assert ListOk(s, d) && ListOk(s, UNUSED_DPID);
    hide HandleOk;
    hide Remove;
    if x in ListOf(s, UNUSED_DPID).members {
      assert x !in s.lists[d].members;
      OwnedApart(s, Reap(s, x), d, id, h);
    }
  }

  // An id stays with its channel over every run.
  lemma {:induction false} OwnedRun<H>(s: State<H>, ops: seq<Op<H>>, d: u64, id: nat, h: H)
    requires Consistent(s) && Proper(s, ops) && d != UNUSED_DPID && Owned(s, d, id, h)
    ensures Owned(RunAll(s, ops), d, id, h)
    decreases |ops|
  {
    hide HandleOk;
    hide ListOk;
    hide Apply;
    hide Owned;
    if ops != [] {
      ApplyKeeps(s, ops[0]);
      OwnedStep(s, ops[0], d, id, h);
      OwnedRun(Apply(s, ops[0]), ops[1..], d, id, h);
    }
  }

  // What an operation does, channel by channel. Every channel but h is left where it is.
  ghost predicate Untouched<H>(s: State<H>, t: State<H>, h: H)
  {
    && (forall g <- s.at :: g != h ==> g in t.at && t.at[g] == s.at[g])
    && (forall g <- s.ids :: g != h ==> g in t.ids && t.ids[g] == s.ids[g])
    && (forall d, g :: g in ListOf(s, d).members && g != h ==> g in ListOf(t, d).members)
    && (forall d, g :: g in ListOf(t, d).members && g != h ==> g in ListOf(s, d).members)
  }

  ghost predicate Unlisted<H>(s: State<H>, h: H)
  {
    forall d :: h !in ListOf(s, d).members
  }

  lemma CreateIs<H>(s: State<H>, name: string, h: H)
    requires Consistent(s) && h !in s.at
    ensures
      var (t, ret) := Create(s, name, h);
      if name in s.names then ret == ALREADY_EXISTS && t == s
      else
        && ret == OK && t.names == s.names[name := h]
        && h in t.at && t.at[h] == 0 && Unlisted(t, h) && Untouched(s, t, h)
  {
    hide HandleOk;
    forall d | d in s.lists
      ensures h !in s.lists[d].members
    {
      assert ListOk(s, d);
    }
    hide ListOk;
  }

  // Which code a dpid set returns, and that an OK attaches the channel: the lookup by the id it
  // is given finds it.
  lemma SetDpidIs<H>(s: State<H>, name: string, d: u64, alive: bool)
    requires Consistent(s)
    ensures
      var (t, ret) := SetDpid(s, name, d, alive);
      && ret == (if d == 0 then INVALID_ARGS
                 else if name !in s.names then NOT_FOUND
                 else if s.at[s.names[name]] != 0 || alive then BUSY
                 else OK)
      && (ret != OK ==> t == s)
      && (ret == OK ==>
            var h := s.names[name];
            && t.names == s.names && h in t.at && t.at[h] == d && Untouched(s, t, h)
            && d in t.lists && t.lists[d].members == [h] + ListOf(s, d).members
            && Finds(t, d, if d in s.lists then s.lists[d].idMax else 0, h)
            && t.lists[d].idMax == t.ids[h] + 1)
  {
    hide HandleOk;
    hide ListOk;
  }

  lemma DetachUnlists<H>(s: State<H>, h: H)
    requires Consistent(s) && h in s.at && s.at[h] != 0
    ensures Unlisted(Detach(s, h), h)
  {
    var t, d := Detach(s, h), s.at[h];
    assert HandleOk(s, h);
    assert ListOk(s, d);
    RemoveOnce(s.lists[d].members, h);
    hide HandleOk;
    hide NamesOk;
    forall e
      ensures h !in ListOf(t, e).members
    {
      if e in s.lists && e != d {
        assert ListOk(s, e);
      }
    }
  }

  lemma DetachIs<H>(s: State<H>, h: H)
    requires Consistent(s) && h in s.at && s.at[h] != 0
    ensures
      var t := Detach(s, h);
      && t.names == s.names && t.ids == s.ids && h in t.at && t.at[h] == 0
      && Unlisted(t, h) && Untouched(s, t, h)
  {
    DetachUnlists(s, h);
    assert HandleOk(s, h);
    assert ListOk(s, s.at[h]);
    RemoveOnce(s.lists[s.at[h]].members, h);
    hide Consistent;
    hide HandleOk;
    hide ListOk;
    hide Unlisted;
    hide Remove;
  }

  // An unset takes the channel off its dpid and leaves it its name.
  lemma UnsetDpidIs<H>(s: State<H>, name: string, alive: bool)
    requires Consistent(s)
    ensures
      var (t, ret) := UnsetDpid(s, name, alive);
      && ret == (if name !in s.names then NOT_FOUND else if alive then BUSY else OK)
      && (ret != OK ==> t == s)
      && (ret == OK ==>
            var h := s.names[name];
            t.names == s.names && h in t.at && t.at[h] == 0 && Unlisted(t, h) && Untouched(s, t, h))
  {
    if name in s.names {
      var h := s.names[name];
      assert HandleOk(s, h);
      if s.at[h] != 0 {
        DetachIs(s, h);
      } else {
        assert Named(s, h);
        forall e | e in s.lists
          ensures h !in s.lists[e].members
        {
          assert ListOk(s, e);
        }
      }
      hide ListOk;
      hide HandleOk;
      hide Detach;
    }
  }

  lemma RetireIs<H>(s: State<H>, h: H)
    requires Unlisted(s, h) && 0 in s.lists
    ensures
      var t := Retire(s, h);
      && t.names == s.names && t.at == s.at && t.ids == s.ids && Untouched(s, t, h)
      && forall d :: h in ListOf(t, d).members <==> d == 0
  {
  }

  lemma UntouchedTwice<H>(s: State<H>, t: State<H>, u: State<H>, h: H)
    requires Untouched(s, t, h) && Untouched(t, u, h)
    ensures Untouched(s, u, h)
  {
  }

  // Destruction is an unset followed by the loss of the name.
  lemma DestroyParts<H>(s: State<H>, name: string)
    requires NamesOk(s) && name in s.names
    ensures Destroy(s, name) == Retire(UnsetDpid(s, name, false).0.(names := s.names - {name}), s.names[name])
  {
    hide Remove;
    hide Retire;
  }

  lemma RenamedIs<H>(s: State<H>, names: map<string, H>, h: H)
    ensures
      var t := s.(names := names);
      Untouched(s, t, h) && (Unlisted(s, h) ==> Unlisted(t, h))
  {
    assert forall d :: ListOf(s, d) == ListOf(s.(names := names), d);
  }

  // A destroyed channel has no name and no dpid, and waits in the free list.
  lemma DestroyIs<H>(s: State<H>, name: string)
    requires Consistent(s)
    ensures
      var t := Destroy(s, name);
      if name !in s.names then t == s
      else
        var h := s.names[name];
        && t.names == s.names - {name} && h in t.at && t.at[h] == 0 && Untouched(s, t, h)
        && forall d :: h in ListOf(t, d).members <==> d == 0
  {
    if name in s.names {
      var h := s.names[name];
      var u := UnsetDpid(s, name, false).0;
      var v := u.(names := s.names - {name});
      assert 0 in v.lists;
      DestroyParts(s, name);
      UnsetDpidIs(s, name, false);
      hide *;
      RenamedIs(u, s.names - {name}, h);
      RetireIs(v, h);
      UntouchedTwice(s, u, v, h);
      UntouchedTwice(s, v, Retire(v, h), h);
    }
  }

  lemma ReapIs<H>(s: State<H>, h: H)
    requires Consistent(s) && h in s.lists[0].members
    ensures
      var t := Reap(s, h);
      t.names == s.names && h !in t.at && h !in t.ids && Unlisted(t, h) && Untouched(s, t, h)
  {
    var t := Reap(s, h);
    assert ListOk(s, 0);
    RemoveOnce(s.lists[0].members, h);
    forall e
      ensures h !in ListOf(t, e).members
    {
      if e in s.lists && e != 0 {
        assert ListOk(s, e);
      }
    }
    hide ListOk;
    hide HandleOk;
    hide NamesOk;
  }

  // The lookup by dpid and id, told from the channel.
  lemma FindsIff<H>(s: State<H>, d: u64, id: nat, h: H)
    requires Consistent(s) && d != 0
    ensures Finds(s, d, id, h) <==> h in s.at && s.at[h] == d && s.ids[h] == id
  {
    if h in s.at {
      assert HandleOk(s, h);
    }
    if d in s.lists {
      assert ListOk(s, d);
    }
  }

  // The channel named n is attached to d with that id.
  ghost predicate AttachedAs<H>(s: State<H>, n: string, h: H, d: u64, id: nat)
  {
    n in s.names && s.names[n] == h && h in s.at && s.at[h] == d && h in s.ids && s.ids[h] == id
  }

  // The operations that take the channel named n off its dpid.
  predicate Takes<H>(op: Op<H>, n: string)
  {
    (op.DoUnsetDpid? && op.name == n && !op.alive) || (op.DoDestroy? && op.name == n)
  }

  // It stays attached when an operation touches another channel and leaves it its name.
  lemma StaysAttached<H>(s: State<H>, t: State<H>, x: H, n: string, h: H, d: u64, id: nat)
    requires AttachedAs(s, n, h, d, id) && Untouched(s, t, x) && x != h && n in t.names && t.names[n] == h
    ensures AttachedAs(t, n, h, d, id)
  {
  }

  lemma AttachedCreate<H>(s: State<H>, name: string, x: H, n: string, h: H, d: u64, id: nat)
    requires Consistent(s) && x !in s.at && AttachedAs(s, n, h, d, id)
    ensures AttachedAs(Create(s, name, x).0, n, h, d, id)
  {
    CreateIs(s, name, x);
    hide Consistent;
    hide Untouched;
    hide Unlisted;
    hide Create;
    if name !in s.names {
      StaysAttached(s, Create(s, name, x).0, x, n, h, d, id);
    }
  }

  lemma AttachedSet<H>(s: State<H>, name: string, e: u64, alive: bool, n: string, h: H, d: u64, id: nat)
    requires Consistent(s) && AttachedAs(s, n, h, d, id) && d != 0
    ensures AttachedAs(SetDpid(s, name, e, alive).0, n, h, d, id)
  {
    SetDpidIs(s, name, e, alive);
    hide Consistent;
    hide Untouched;
    hide Finds;
    hide SetDpid;
    if SetDpid(s, name, e, alive).1 == OK {
      StaysAttached(s, SetDpid(s, name, e, alive).0, s.names[name], n, h, d, id);
    }
  }

  lemma AttachedUnset<H>(s: State<H>, name: string, alive: bool, n: string, h: H, d: u64, id: nat)
    requires Consistent(s) && AttachedAs(s, n, h, d, id)
    ensures name != n || alive ==> AttachedAs(UnsetDpid(s, name, alive).0, n, h, d, id)
    ensures name == n && !alive ==>
      var t := UnsetDpid(s, name, alive).0; h in t.at && t.at[h] == 0
  {
    UnsetDpidIs(s, name, alive);
    OtherName(s, name, n);
    hide Consistent;
    hide NamesOk;
    hide Untouched;
    hide Unlisted;
    hide UnsetDpid;
    if name in s.names && !alive && name != n {
      StaysAttached(s, UnsetDpid(s, name, alive).0, s.names[name], n, h, d, id);
    }
  }

  lemma AttachedDestroy<H>(s: State<H>, name: string, n: string, h: H, d: u64, id: nat)
    requires Consistent(s) && AttachedAs(s, n, h, d, id)
    ensures name != n ==> AttachedAs(Destroy(s, name), n, h, d, id)
    ensures name == n ==> h in Destroy(s, name).at && Destroy(s, name).at[h] == 0
  {
    DestroyIs(s, name);
    OtherName(s, name, n);
    hide Consistent;
    hide NamesOk;
    hide Untouched;
    hide Destroy;
    if name in s.names && name != n {
      StaysAttached(s, Destroy(s, name), s.names[name], n, h, d, id);
    }
  }

  lemma OtherName<H>(s: State<H>, m: string, n: string)
    requires NamesOk(s)
    ensures m in s.names && n in s.names && m != n ==> s.names[m] != s.names[n]
  {
  }

  lemma AttachedStep<H>(s: State<H>, op: Op<H>, n: string, h: H, d: u64, id: nat)
    requires Consistent(s) && (op.DoCreate? ==> op.handle !in s.at)
    requires AttachedAs(s, n, h, d, id) && d != 0
    ensures !Takes(op, n) ==> AttachedAs(Apply(s, op), n, h, d, id)
    ensures Takes(op, n) ==> h in Apply(s, op).at && Apply(s, op).at[h] == 0
  {
    hide Consistent;
    hide AttachedAs;
    hide Create;
    hide SetDpid;
    hide UnsetDpid;
    hide Destroy;
    hide Reap;
    match op
    case DoCreate(name, x) => AttachedCreate(s, name, x, n, h, d, id);
    case DoSetDpid(name, e, alive) => AttachedSet(s, name, e, alive, n, h, d, id);
    case DoUnsetDpid(name, alive) => AttachedUnset(s, name, alive, n, h, d, id);
    case DoDestroy(name) => AttachedDestroy(s, name, n, h, d, id);
    case DoReap(x) => AttachedReap(s, x, n, h, d, id);
  }

  lemma AttachedReap<H>(s: State<H>, x: H, n: string, h: H, d: u64, id: nat)
    requires Consistent(s) && AttachedAs(s, n, h, d, id) && d != 0
    ensures AttachedAs(Reap(s, x), n, h, d, id)
  {
    assert ListOk(s, 0);
    hide ListOk;
    hide HandleOk;
    hide Untouched;
    hide Unlisted;
    if x in s.lists[0].members {
      ReapIs(s, x);
      StaysAttached(s, Reap(s, x), x, n, h, d, id);
    }
  }

  // The id was given out on d, and h is not there with it.
  ghost predicate Gone<H>(s: State<H>, d: u64, id: nat, h: H)
  {
    d in s.lists && id < s.lists[d].idMax && !(h in s.at && s.at[h] == d && h in s.ids && s.ids[h] == id)
  }

  lemma GoneStep<H>(s: State<H>, op: Op<H>, d: u64, id: nat, h: H)
    requires Consistent(s) && (op.DoCreate? ==> op.handle !in s.at) && d != 0 && Gone(s, d, id, h)
    ensures Gone(Apply(s, op), d, id, h)
  {
    hide HandleOk;
    hide ListOk;
    hide Remove;
  }

  lemma {:induction false} GoneRun<H>(s: State<H>, ops: seq<Op<H>>, d: u64, id: nat, h: H)
    requires Consistent(s) && Proper(s, ops) && d != 0 && Gone(s, d, id, h)
    ensures Gone(RunAll(s, ops), d, id, h)
    decreases |ops|
  {
    hide HandleOk;
    hide ListOk;
    hide Apply;
    hide Gone;
    if ops != [] {
      ApplyKeeps(s, ops[0]);
      GoneStep(s, ops[0], d, id, h);
      GoneRun(Apply(s, ops[0]), ops[1..], d, id, h);
    }
  }

  lemma IdWasGiven<H>(s: State<H>, op: Op<H>, n: string, h: H, d: u64, id: nat)
    requires Consistent(s) && AttachedAs(s, n, h, d, id) && d != 0 && Takes(op, n)
    ensures Gone(Apply(s, op), d, id, h)
  {
    AttachedStep(s, op, n, h, d, id);
    assert HandleOk(s, h);
    assert ListOk(s, d);
    hide HandleOk;
    hide ListOk;
    hide Remove;
  }

  // Over every run: the channel keeps its dpid and id exactly until an operation that takes it
  // off, and does not get that id again.
  lemma {:induction false} AttachedIff<H>(s: State<H>, ops: seq<Op<H>>, n: string, h: H, d: u64, id: nat)
    requires Consistent(s) && Proper(s, ops) && AttachedAs(s, n, h, d, id) && d != 0
    ensures
      var t := RunAll(s, ops);
      h in t.at && t.at[h] == d && h in t.ids && t.ids[h] == id <==> forall op <- ops :: !Takes(op, n)
    decreases |ops|
  {
    if ops != [] {
      var op := ops[0];
      assert op in ops;
      assert forall x <- ops[1..] :: x in ops;
      assert forall x <- ops :: x == op || x in ops[1..];
      ApplyKeeps(s, op);
      if Takes(op, n) {
        IdWasGiven(s, op, n, h, d, id);
        GoneRun(Apply(s, op), ops[1..], d, id, h);
      } else {
        AttachedStep(s, op, n, h, d, id);
        hide *;
        AttachedIff(Apply(s, op), ops[1..], n, h, d, id);
      }
    }
  }

  // The lookup for a barrier reply finds the requesting channel exactly when nothing that
  // happened since the request took it off its dpid.
  lemma BarrierIff<H>(s: State<H>, ops: seq<Op<H>>, n: string)
    requires Consistent(s) && Proper(s, ops) && n in s.names && s.at[s.names[n]] != 0
    ensures
      var h := s.names[n];
      h in s.ids && (Finds(RunAll(s, ops), s.at[h], s.ids[h], h) <==> forall op <- ops :: !Takes(op, n))
  {
    var h := s.names[n];
    assert HandleOk(s, h);
    hide HandleOk;
    hide ListOk;
    RunKeeps(s, ops);
    AttachedIff(s, ops, n, h, s.at[h], s.ids[h]);
    FindsIff(RunAll(s, ops), s.at[h], s.ids[h], h);
    InIdsAll(RunAll(s, ops));
  }

  lemma InIdsAll<H>(s: State<H>)
    requires Consistent(s)
    ensures forall h <- s.at :: h in s.ids
  {
    forall h <- s.at
      ensures h in s.ids
    {
      assert HandleOk(s, h);
    }
  }

  // The reply to a barrier looks its channel up by the dpid and the id noted at the request:
  // whatever happened to the tables in between, it finds that channel or none.
  lemma BarrierReachesRequester<H>(s: State<H>, ops: seq<Op<H>>, h: H, g: H)
    requires Consistent(s) && Proper(s, ops)
    requires h in s.at && s.at[h] != UNUSED_DPID && h in s.ids
    requires Finds(RunAll(s, ops), s.at[h], s.ids[h], g)
    ensures g == h
  {
    assert HandleOk(s, h);
    assert ListOk(s, s.at[h]);
    OwnedRun(s, ops, s.at[h], s.ids[h], h);
  }
}

module ChannelManager {
  import opened Bytes
  import opened Results
  import T = ChannelTables

  class Channel {
    var dpid: u64
    var id: nat

    constructor ()
      ensures dpid == T.UNUSED_DPID && id == 0
    {
      dpid := T.UNUSED_DPID;
      id := 0;
    }
  }

  class Manager {
    var mainTable: map<string, Channel>
    var dpTable: map<u64, T.ChannelList<Channel>>
    // The channels that have been allocated and not freed.
    ghost var live: set<Channel>

    ghost function At(): (m: map<Channel, u64>)
      reads this`live, live
      ensures m.Keys == live && forall c <- live :: m[c] == c.dpid
    {
      map c | c in live :: c.dpid
    }

    ghost function Ids(): (m: map<Channel, nat>)
      reads this`live, live
      ensures m.Keys == live && forall c <- live :: m[c] == c.id
    {
      map c | c in live :: c.id
    }

    ghost function Abs(): T.State<Channel>
      reads this, live
    {
      T.State(mainTable, At(), Ids(), dpTable)
    }

    ghost predicate Valid()
      reads this, live
    {
      T.Consistent(Abs())
    }

    constructor ()
      ensures Valid() && Abs() == T.Start()
    {
      mainTable := map[];
      dpTable := map[T.UNUSED_DPID := T.ChannelList([], 0)];
      live := {};
    }

    // channel_add_internal.
    method AddInternal(name: string) returns (ret: Code, ghost channel: Channel?)
      requires Valid()
      modifies this`mainTable, this`live
      ensures Valid() && fresh(live - old(live))
      ensures name in old(mainTable) ==> ret == ALREADY_EXISTS && Abs() == old(Abs())
      ensures name !in old(mainTable) ==>
        && channel != null && channel !in old(live)
        && (Abs(), ret) == T.Create(old(Abs()), name, channel)
    {
      hide T.Consistent;
      channel := null;
      if name in mainTable {
        ret := ALREADY_EXISTS;
      } else {
        var c := new Channel();
        assert Abs() == old(Abs());
        T.CreateKeeps(Abs(), name, c);
        mainTable := mainTable[name := c];
        live := live + {c};
        channel := c;
        ret := OK;
        assert At() == old(At())[c := T.UNUSED_DPID];
        assert Ids() == old(Ids())[c := 0];
        assert Abs() == T.Create(old(Abs()), name, c).0;
      }
    }

    method Attach(c: Channel, dpid: u64)
      requires c in live
      modifies this`dpTable, c
      ensures Abs() == T.Attach(old(Abs()), c, dpid)
    {
      c.dpid := dpid;
      if dpid !in dpTable {
        dpTable := dpTable[dpid := T.ChannelList([], 0)];
      }
      var list := dpTable[dpid];
      c.id := list.idMax;
      dpTable := dpTable[dpid := T.ChannelList([c] + list.members, list.idMax + 1)];
    }

    // channel_set_dpid; alive is what channel_is_alive says of the channel.
    method SetDpid(name: string, dpid: u64, alive: bool) returns (ret: Code)
      requires Valid()
      modifies this`dpTable, live
      ensures Valid() && live == old(live)
      ensures (Abs(), ret) == T.SetDpid(old(Abs()), name, dpid, alive)
    {
      T.ApplyKeeps(Abs(), T.DoSetDpid(name, dpid, alive));
      hide T.Consistent;
      hide T.NamesOk;
      hide At;
      hide Ids;
      hide T.Attach;
      if dpid == T.UNUSED_DPID {
        return INVALID_ARGS;
      }
      if name !in mainTable {
        return NOT_FOUND;
      }
      T.InMemory(Abs(), name);
      var c := mainTable[name];
      assert c in live && Abs().at[c] == c.dpid;
      if c.dpid != T.UNUSED_DPID {
        return BUSY;
      }
      if alive {
        return BUSY;
      }
      Attach(c, dpid);
      ret := OK;
    }

    // channel_list_delete: unlink the channel from the list it is on.
    method ListDelete(list: seq<Channel>, c: Channel) returns (r: seq<Channel>)
      requires c in list
      ensures r == T.Remove(list, c)
    {
      var i := 0;
      while list[i] != c
        invariant i < |list| && c !in list[..i]
        decreases |list| - i
      {
        i := i + 1;
      }
      T.RemoveAt(list, c, i);
      r := list[..i] + list[i + 1..];
    }

    method Detach(c: Channel)
      requires c in live && c.dpid in dpTable && c in dpTable[c.dpid].members
      modifies this`dpTable, c
      ensures Abs() == T.Detach(old(Abs()), c)
    {
      hide T.Remove;
      var d, list := c.dpid, dpTable[c.dpid];
      var rest := ListDelete(list.members, c);
      dpTable := dpTable[d := list.(members := rest)];
      c.dpid := T.UNUSED_DPID;
    }

    // channel_unset_dpid.
    method UnsetDpid(name: string, alive: bool) returns (ret: Code)
      requires Valid()
      modifies this`dpTable, live
      ensures Valid() && live == old(live)
      ensures (Abs(), ret) == T.UnsetDpid(old(Abs()), name, alive)
    {
      T.ApplyKeeps(Abs(), T.DoUnsetDpid(name, alive));
      hide T.Consistent;
      hide T.NamesOk;
      hide At;
      hide Ids;
      hide T.Detach;
      if name !in mainTable {
        return NOT_FOUND;
      }
      T.InMemory(Abs(), name);
      var c := mainTable[name];
      assert c in live && Abs().at[c] == c.dpid;
      if alive {
        return BUSY;
      }
      if c.dpid == T.UNUSED_DPID {
        return OK;
      }
      Detach(c);
      ret := OK;
    }

    // The insertion into the free list.
    method Retire(c: Channel)
      requires T.UNUSED_DPID in dpTable
      modifies this`dpTable
      ensures Abs() == T.Retire(old(Abs()), c)
    {
      var list := dpTable[T.UNUSED_DPID];
      dpTable := dpTable[T.UNUSED_DPID := list.(members := [c] + list.members)];
    }

    // Where a named channel is found.
    lemma Named(name: string)
      requires Valid() && name in mainTable
      ensures T.NamesOk(Abs()) && mainTable[name] in live && T.UNUSED_DPID in dpTable
      ensures
        var c := mainTable[name];
        c.dpid != T.UNUSED_DPID ==> c.dpid in dpTable && c in dpTable[c.dpid].members
    {
      T.InMemory(Abs(), name);
    }

    method Unlink(name: string)
      requires name in mainTable && mainTable[name] in live && T.UNUSED_DPID in dpTable
      requires
        var c := mainTable[name];
        c.dpid != T.UNUSED_DPID ==> c.dpid in dpTable && c in dpTable[c.dpid].members
      modifies this`mainTable, this`dpTable, mainTable[name]
      ensures old(T.NamesOk(Abs())) ==> Abs() == T.Destroy(old(Abs()), name)
    {
      hide T.NamesOk;
      hide T.Detach;
      hide T.Retire;
      hide At;
      hide Ids;
      var c := mainTable[name];
      mainTable := mainTable - {name};
      ghost var t := Abs();
      if c.dpid != T.UNUSED_DPID {
        T.FreeListStays(t, c);
        Detach(c);
      }
      Retire(c);
    }

    // channel_delete_internal.
    method DeleteInternal(name: string) returns (ret: Code)
      requires Valid()
      modifies this`mainTable, this`dpTable, live
      ensures Valid() && live == old(live) && ret == OK
      ensures Abs() == T.Destroy(old(Abs()), name)
    {
      ret := OK;
      if name in mainTable {
        T.DestroyKeeps(Abs(), name);
        Named(name);
        hide Abs;
        hide T.Consistent;
        hide T.Destroy;
        Unlink(name);
      }
    }

    // The channel is unlinked and its memory freed.
    method Forget(c: Channel, list: T.ChannelList<Channel>)
      modifies this`dpTable, this`live
      ensures dpTable == old(dpTable)[T.UNUSED_DPID := list]
      ensures At() == old(At()) - {c} && Ids() == old(Ids()) - {c}
    {
      dpTable := dpTable[T.UNUSED_DPID := list];
      live := live - {c};
    }

    method Discard(c: Channel)
      requires T.UNUSED_DPID in dpTable && c in dpTable[T.UNUSED_DPID].members
      modifies this`dpTable, this`live
      ensures Abs() == T.Reap(old(Abs()), c)
    {
      hide T.Remove;
      hide At;
      hide Ids;
      var list := dpTable[T.UNUSED_DPID];
      var rest := ListDelete(list.members, c);
      Forget(c, list.(members := rest));
    }

    // periodical_channel_entry_free, for a channel that is not busy.
    method Reap(c: Channel)
      requires Valid() && T.UNUSED_DPID in dpTable && c in dpTable[T.UNUSED_DPID].members
      modifies this`dpTable, this`live
      ensures Valid() && Abs() == T.Reap(old(Abs()), c)
    {
      T.ReapKeeps(Abs(), c);
      hide T.Reap;
      hide T.Consistent;
      hide Abs;
      Discard(c);
    }

    // channel_mgr_channel_lookup_by_channel_id: the walk stops at the first match.
    method LookupByChannelId(dpid: u64, id: nat) returns (ret: Code, channel: Channel?)
      requires Valid()
      ensures ret == OK ==> channel != null && T.Finds(Abs(), dpid, id, channel)
      ensures ret != OK ==> ret == NOT_FOUND && channel == null && forall c <- live :: !T.Finds(Abs(), dpid, id, c)
    {
      ret, channel := NOT_FOUND, null;
      if dpid !in dpTable {
        return;
      }
      var list := dpTable[dpid].members;
      T.MembersInMemory(Abs(), dpid);
      hide T.Consistent;
      var i := 0;
      while i < |list|
        invariant i <= |list|
        invariant forall j :: 0 <= j < i ==> list[j].id != id
      {
        assert list[i] in list;
        if list[i].id == id {
          return OK, list[i];
        }
        i := i + 1;
      }
    }
  }
}
