// Controller roles and the generation id of one dpid.

module Roles {
  import opened Bytes

  datatype Role = NoChange | Equal | Master | Slave

  const U64: nat := 0x1_0000_0000_0000_0000
  const HALF: nat := 0x8000_0000_0000_0000

  // The channels of the dpid with their roles, and the generation id once one is defined.
  datatype Gen = Undefined | Defined(id: u64)

  datatype State = State(roles: seq<Role>, gen: Gen)

  datatype Request = Request(channel: nat, role: Role, generation: u64)

  // distance: the 64-bit difference read as a signed number.
  function Distance(id: u64, current: u64): int
  {
    var d := (id as int - current) % U64;
    if d < HALF then d else d - U64
  }

  // ofp_role_generation_id_check.
  predicate Accepts(gen: Gen, r: Request)
  {
    (r.role == Master || r.role == Slave) && gen.Defined? ==> Distance(r.generation, gen.id) >= 0
  }

  function NextGen(gen: Gen, r: Request): Gen
  {
    if (r.role == Master || r.role == Slave) && Accepts(gen, r) then Defined(r.generation) else gen
  }

  // change_master2slave, for every channel of the dpid.
  function Demoted(roles: seq<Role>): (r: seq<Role>)
    ensures |r| == |roles|
  {
    seq(|roles|, i requires 0 <= i < |roles| => if roles[i] == Master then Slave else roles[i])
  }

  // ofp_role_channel_update: the masters are demoted when the channel was a master itself.
  function Updated(roles: seq<Role>, i: nat, role: Role): (r: seq<Role>)
    requires i < |roles|
    ensures |r| == |roles|
  {
    if role == roles[i] || role == NoChange then roles
    else (if roles[i] == Master then Demoted(roles) else roles)[i := role]
  }

  // ofp_role_request_handle.
  function Apply(s: State, r: Request): (t: State)
    ensures |t.roles| == |s.roles|
  {
    if r.channel < |s.roles| && Accepts(s.gen, r)
    then State(Updated(s.roles, r.channel, r.role), NextGen(s.gen, r))
    else s
  }

  function RunAll(s: State, rs: seq<Request>): (t: State)
    ensures |t.roles| == |s.roles|
  {
    if rs == [] then s else Apply(RunAll(s, rs[..|rs| - 1]), rs[|rs| - 1])
  }

  // Whether the request is accepted and carries a generation id.
  predicate Advances(s: State, r: Request)
  {
    r.channel < |s.roles| && (r.role == Master || r.role == Slave) && Accepts(s.gen, r)
  }

  // How far the generation id moves forward, in the circle of 64-bit numbers, over a run.
  function Moved(s: State, rs: seq<Request>): nat
    requires s.gen.Defined?
  {
    if rs == [] then 0
    else
      var before := rs[..|rs| - 1];
      GenStays(s, before);
      var t, r := RunAll(s, before), rs[|rs| - 1];
      Moved(s, before) + if Advances(t, r) then Distance(r.generation, t.gen.id) else 0
  }

  lemma {:induction false} GenStays(s: State, rs: seq<Request>)
    requires s.gen.Defined?
    ensures RunAll(s, rs).gen.Defined?
  {
    if rs != [] {
      GenStays(s, rs[..|rs| - 1]);
    }
  }

  lemma ModUnique(b: int, q: int, r: int)
    requires b == q * U64 + r && 0 <= r < U64
    ensures b % U64 == r
  {
    var q', r' := b / U64, b % U64;
    assert (q' - q) * U64 == r - r';
  }

  // The cached id is the first one moved forward by the accepted distances.
  lemma {:induction false} GenIsMoved(s: State, rs: seq<Request>)
    requires s.gen.Defined?
    ensures RunAll(s, rs).gen.Defined?
    ensures RunAll(s, rs).gen.id == (s.gen.id + Moved(s, rs)) % U64
  {
    GenStays(s, rs);
    if rs == [] {
      ModUnique(s.gen.id, 0, s.gen.id);
    } else {
      var before, r := rs[..|rs| - 1], rs[|rs| - 1];
      GenIsMoved(s, before);
      var t := RunAll(s, before);
      if Advances(t, r) {
        AdvanceAdds(s.gen.id, Moved(s, before), t.gen.id, r.generation);
      }
    }
  }

  lemma AdvanceAdds(c: u64, d: nat, e: u64, g: u64)
    requires e == (c + d) % U64 && Distance(g, e) >= 0
    ensures g == (c + d + Distance(g, e)) % U64
  {
    var q, q2 := (c + d) / U64, (g as int - e) / U64;
    assert c + d == q * U64 + e;
    assert g as int - e == q2 * U64 + Distance(g, e);
    assert c + d + Distance(g, e) == (q - q2) * U64 + g;
    ModUnique(c + d + Distance(g, e), q - q2, g);
  }

  // An id that the run has moved past by Moved in all is refused exactly when that distance is
  // between 1 and 2^63 in the circle; a refused request leaves everything as it was.
  lemma SupersededIsRefused(s: State, rs: seq<Request>, r: Request)
    requires s.gen.Defined? && r.generation == s.gen.id && (r.role == Master || r.role == Slave)
    ensures Accepts(RunAll(s, rs).gen, r) <==> !(0 < Moved(s, rs) % U64 <= HALF)
    ensures !Accepts(RunAll(s, rs).gen, r) ==> Apply(RunAll(s, rs), r) == RunAll(s, rs)
  {
    hide *;
    GenIsMoved(s, rs);
    BehindBy(s.gen.id, Moved(s, rs), RunAll(s, rs).gen.id);
    RefusedIff(RunAll(s, rs), r);
  }

  lemma RefusedIff(s: State, r: Request)
    requires s.gen.Defined? && (r.role == Master || r.role == Slave)
    ensures Accepts(s.gen, r) <==> (r.generation as int - s.gen.id) % U64 < HALF
    ensures !Accepts(s.gen, r) ==> Apply(s, r) == s
  {
  }

  // Where an id lies that is d behind another one on the circle.
  lemma BehindBy(c: u64, d: nat, e: u64)
    requires e == (c + d) % U64
    ensures (c as int - e) % U64 == if d % U64 == 0 then 0 else U64 - d % U64
    ensures (c as int - e) % U64 < HALF <==> !(0 < d % U64 <= HALF)
  {
    var q, m := (c + d) / U64, d % U64;
    assert c + d == q * U64 + e;
    assert d == (d / U64) * U64 + m;
    var k := d / U64 - q;
    assert c as int - e == -k * U64 - m;
    if m == 0 {
      ModUnique(c as int - e, -k, 0);
    } else {
      ModUnique(c as int - e, -k - 1, U64 - m);
    }
  }

  // A request that carries a generation id, to a dpid with n channels.
  predicate CarriesId(n: nat, r: Request)
  {
    r.channel < n && (r.role == Master || r.role == Slave)
  }

  // Which requests pass the check, of whatever state the dpid is in.
  lemma AcceptsIff(s: State, r: Request)
    ensures Accepts(s.gen, r) <==>
      || r.role in {NoChange, Equal} || s.gen == Undefined
      || (r.generation as int - s.gen.id) % 0x1_0000_0000_0000_0000 < 0x8000_0000_0000_0000
  {
  }

  // The first id is cached, and from then on the ids behind it are refused.
  lemma FirstIdIff(roles: seq<Role>, r: Request, q: Request)
    requires CarriesId(|roles|, r) && (q.role == Master || q.role == Slave)
    ensures Accepts(State(roles, Undefined).gen, r)
    ensures Accepts(Apply(State(roles, Undefined), r).gen, q)
      <==> (q.generation as int - r.generation) % 0x1_0000_0000_0000_0000 < 0x8000_0000_0000_0000
  {
  }

  // From any state: an id is cached exactly when there was one or the run brought one.
  lemma {:induction false} GenDefinedIff(s: State, rs: seq<Request>)
    ensures RunAll(s, rs).gen.Defined? <==> s.gen.Defined? || exists r <- rs :: CarriesId(|s.roles|, r)
  {
    if rs != [] {
      var before, last := rs[..|rs| - 1], rs[|rs| - 1];
      GenDefinedIff(s, before);
      assert rs == before + [last] && last in rs;
      assert forall r <- before :: r in rs;
      hide Updated;
    }
  }

  lemma {:induction false} RunConcat(s: State, a: seq<Request>, b: seq<Request>)
    ensures RunAll(s, a + b) == RunAll(RunAll(s, a), b)
    decreases |b|
  {
    hide Apply;
    if b == [] {
      assert a + b == a;
    } else {
      var n := |b| - 1;
      assert (a + b)[..|a| + n] == a + b[..n] && (a + b)[|a| + n] == b[n];
      RunConcat(s, a, b[..n]);
    }
  }

  // A dpid starts without an id. After the first request that brings one, in a run of any
  // length, the cached id is that one moved forward by the accepted distances, and the first id
  // itself is refused exactly when it was moved past.
  lemma GenFromStart(s: State, rs: seq<Request>, k: nat, r: Request)
    requires s.gen == Undefined && k < |rs| && CarriesId(|s.roles|, rs[k])
    requires forall q <- rs[..k] :: !CarriesId(|s.roles|, q)
    requires r.generation == rs[k].generation && (r.role == Master || r.role == Slave)
    ensures RunAll(s, rs[..k + 1]).gen == Defined(rs[k].generation)
    ensures
      var d := Moved(RunAll(s, rs[..k + 1]), rs[k + 1..]);
      && RunAll(s, rs).gen == Defined((rs[k].generation + d) % U64)
      && (Accepts(RunAll(s, rs).gen, r) <==> !(0 < d % U64 <= HALF))
  {
    GenDefinedIff(s, rs[..k]);
    assert rs[..k + 1][..k] == rs[..k] && rs == rs[..k + 1] + rs[k + 1..];
    var t := RunAll(s, rs[..k + 1]);
    assert t == Apply(RunAll(s, rs[..k]), rs[k]);
    assert t.gen == Defined(rs[k].generation);
    hide *;
    RunConcat(s, rs[..k + 1], rs[k + 1..]);
    GenIsMoved(t, rs[k + 1..]);
    SupersededIsRefused(t, rs[k + 1..], r);
  }

  // What a request does to the roles: nothing when it is refused or asks for no change, else its
  // channel has the role it asked for; and the other masters become slaves exactly when the
  // channel was a master and gives that up.
  lemma RolesAfter(s: State, r: Request, j: nat)
    requires r.channel < |s.roles| && j < |s.roles|
    ensures !Accepts(s.gen, r) || r.role == NoChange ==> Apply(s, r).roles == s.roles
    ensures Accepts(s.gen, r) && r.role != NoChange ==> Apply(s, r).roles[r.channel] == r.role
    ensures j != r.channel ==>
      Apply(s, r).roles[j] ==
        if Accepts(s.gen, r) && s.roles[r.channel] == Master && r.role in {Equal, Slave} && s.roles[j] == Master
        then Slave else s.roles[j]
  {
  }

  // Every accepted id is at most 2^63 - 1 ahead of the cached one, and becomes the cached one.
  lemma AcceptedIsAhead(s: State, r: Request)
    requires s.gen.Defined? && Advances(s, r)
    ensures 0 <= (r.generation as int - s.gen.id) % U64 < HALF
    ensures Apply(s, r).gen == Defined(r.generation)
  {
  }

  function Masters(roles: seq<Role>): set<nat>
  {
    set i: nat | i < |roles| && roles[i] == Master
  }

  // What an accepted request does to the masters of the dpid.
  datatype Kind = Promotion | StepDown | Neither

  function KindOf(s: State, r: Request): Kind
  {
    if !(r.channel < |s.roles| && Accepts(s.gen, r)) then Neither
    else if s.roles[r.channel] == Master then
      if r.role == Master || r.role == NoChange then Neither else StepDown
    else if r.role == Master then Promotion
    else Neither
  }

  lemma MastersAfter(s: State, r: Request)
    ensures Masters(Apply(s, r).roles) ==
      match KindOf(s, r)
      case Promotion => Masters(s.roles) + {r.channel}
      case StepDown => {}
      case Neither => Masters(s.roles)
    ensures KindOf(s, r) == Promotion ==> r.channel !in Masters(s.roles)
  {
  }

  // The promotions since a master last stepped down.
  function Streak(s: State, rs: seq<Request>): nat
  {
    if rs == [] then |Masters(s.roles)|
    else
      var before := rs[..|rs| - 1];
      match KindOf(RunAll(s, before), rs[|rs| - 1])
      case Promotion => Streak(s, before) + 1
      case StepDown => 0
      case Neither => Streak(s, before)
  }

  // Over any run the number of masters is the number of promotions since the last step-down, so
  // there is a second master exactly after two promotions with none between.
  lemma {:induction false} MastersArePromotions(s: State, rs: seq<Request>)
    ensures |Masters(RunAll(s, rs).roles)| == Streak(s, rs)
  {
    if rs != [] {
      var before := rs[..|rs| - 1];
      MastersArePromotions(s, before);
      MastersAfter(RunAll(s, before), rs[|rs| - 1]);
    }
  }

  // One request: a second master appears exactly when a channel that is not a master is
  // promoted while there is one.
  lemma SecondMasterIff(s: State, r: Request)
    requires |Masters(s.roles)| <= 1
    ensures |Masters(Apply(s, r).roles)| <= 1 <==> !(KindOf(s, r) == Promotion && Masters(s.roles) != {})
  {
    MastersAfter(s, r);
    if KindOf(s, r) == Promotion && Masters(s.roles) != {} {
      var m :| m in Masters(s.roles);
      assert {m, r.channel} <= Masters(Apply(s, r).roles);
      TwoMembers(m, r.channel, Masters(Apply(s, r).roles));
    } else if Masters(s.roles) == {} {
      assert Masters(Apply(s, r).roles) <= {r.channel};
      AtMostOneOf(Masters(Apply(s, r).roles), r.channel);
    }
  }

  lemma TwoMembers(a: nat, b: nat, s: set<nat>)
    requires a != b && a in s && b in s
    ensures |s| >= 2
  {
    assert |s| == |s - {a}| + 1;
    assert b in s - {a};
  }

  lemma AtMostOneOf(s: set<nat>, a: nat)
    requires s <= {a}
    ensures |s| <= 1
  {
    if a in s {
      assert s == {a};
    } else {
      assert s == {};
    }
  }

  // Two channels asking for MASTER one after the other both get it.
  lemma TwoMasters()
    ensures
      var s := RunAll(State([Equal, Equal], Undefined), [Request(0, Master, 1), Request(1, Master, 2)]);
      s.roles == [Master, Master]
  {
    var s := State([Equal, Equal], Undefined);
    var rs := [Request(0, Master, 1), Request(1, Master, 2)];
    assert rs[..1] == [Request(0, Master, 1)];
    assert rs[..1][..0] == [];
    assert RunAll(s, rs[..1]) == State([Master, Equal], Defined(1));
  }

  // The update with the demotion guarded by the requested role instead.
  function GuardedUpdate(roles: seq<Role>, i: nat, role: Role): (r: seq<Role>)
    requires i < |roles|
    ensures |r| == |roles|
  {
    if role == roles[i] || role == NoChange then roles
    else (if role == Master then Demoted(roles) else roles)[i := role]
  }

  function GuardedRun(roles: seq<Role>, rs: seq<(nat, Role)>): (r: seq<Role>)
    ensures |r| == |roles|
  {
    if rs == [] then roles
    else
      var before := GuardedRun(roles, rs[..|rs| - 1]);
      var (i, role) := rs[|rs| - 1];
      if i < |roles| then GuardedUpdate(before, i, role) else before
  }

  // With that guard no run of role changes ever has two masters.
  lemma {:induction false} GuardOnRequestKeepsOne(roles: seq<Role>, rs: seq<(nat, Role)>)
    requires |Masters(roles)| <= 1
    ensures |Masters(GuardedRun(roles, rs))| <= 1
  {
    if rs != [] {
      GuardOnRequestKeepsOne(roles, rs[..|rs| - 1]);
      var before := GuardedRun(roles, rs[..|rs| - 1]);
      var (i, role) := rs[|rs| - 1];
      if i < |roles| {
        GuardedStep(before, i, role);
      }
    }
  }

  lemma GuardedStep(roles: seq<Role>, i: nat, role: Role)
    requires |Masters(roles)| <= 1 && i < |roles|
    ensures |Masters(GuardedUpdate(roles, i, role))| <= 1
  {
    var r := GuardedUpdate(roles, i, role);
    if role == Master && roles[i] != Master {
      assert Masters(r) <= {i};
      AtMostOneOf(Masters(r), i);
    } else {
      assert Masters(r) <= Masters(roles);
      SubsetSize(Masters(r), Masters(roles));
    }
  }
}

module RoleHandler {
  import opened Bytes
  import opened Results
  import opened Roles

  class Channel {
    var role: Role
  }

  // The channel list of a dpid.
  class ChannelList {
    const channels: seq<Channel>
    var generationIsDefined: bool
    var generationId: u64

    ghost predicate Valid()
    {
      forall i, j :: 0 <= i < j < |channels| ==> channels[i] != channels[j]
    }

    ghost function RolesOf(): (r: seq<Role>)
      reads channels
      ensures |r| == |channels|
    {
      seq(|channels|, i requires 0 <= i < |channels| reads channels => channels[i].role)
    }

    ghost function Abs(): State
      reads this, channels
    {
      State(RolesOf(), if generationIsDefined then Defined(generationId) else Undefined)
    }

    // ofp_role_generation_id_check.
    method GenerationIdCheck(r: Request) returns (ok: bool)
      modifies this
      ensures ok == Accepts(old(Abs()).gen, r)
      ensures Abs() == old(Abs()).(gen := NextGen(old(Abs()).gen, r))
    {
      if r.role != Master && r.role != Slave {
        return true;
      }
      if generationIsDefined {
        var d := Distance(r.generation, generationId);
        if d < 0 {
          return false;
        }
      }
      generationIsDefined := true;
      generationId := r.generation;
      return true;
    }

    // channel_mgr_dpid_iterate with change_master2slave.
    method DemoteMasters()
      requires Valid()
      modifies channels
      ensures RolesOf() == Demoted(old(RolesOf()))
    {
      var k := 0;
      while k < |channels|
        invariant k <= |channels|
        invariant forall j :: 0 <= j < k ==> channels[j].role == Demoted(old(RolesOf()))[j]
        invariant forall j :: k <= j < |channels| ==> channels[j].role == old(RolesOf())[j]
      {
        if channels[k].role == Master {
          channels[k].role := Slave;
        }
        k := k + 1;
      }
    }

    // ofp_role_channel_update; role is what the reply carries.
    method ChannelUpdate(i: nat, requested: Role) returns (role: Role)
      requires Valid() && i < |channels|
      modifies channels
      ensures RolesOf() == Updated(old(RolesOf()), i, requested)
      ensures role == RolesOf()[i]
    {
      var current := channels[i].role;
      if requested == current || requested == NoChange {
        return current;
      }
      if current == Master {
        DemoteMasters();
      }
      ghost var before := RolesOf();
      channels[i].role := requested;
      role := requested;
      assert RolesOf() == before[i := requested];
    }

    // ofp_role_request_handle, for a well-formed request of channel i.
    method RequestHandle(r: Request) returns (ret: Code, role: Role)
      requires Valid() && r.channel < |channels|
      modifies this, channels
      ensures Abs() == Apply(old(Abs()), r)
      ensures ret == if Accepts(old(Abs()).gen, r) then OK else OFP_ERROR
      ensures ret == OK ==> role == Abs().roles[r.channel]
    {
      role := NoChange;
      var ok := GenerationIdCheck(r);
      if ok {
        role := ChannelUpdate(r.channel, r.role);
        ret := OK;
      } else {
        ret := OFP_ERROR;
      }
    }
  }
}
