// The OpenFlow channel: its state machine with nested dispatch, the reconnect interval, and
// the switch mode it drives. A step is everything one thread does under the channel's lock.

module ChannelFsm {
  import opened Bytes

  datatype Status = Idle | Connect | HelloSent | Established | Disable

  datatype Event = Start | Stop | Expired | Open | Closed | Failed | Hello | Message

  // The events that reach a channel from outside: only the connect check finds a connection open.
  type External = e: Event | e != Open witness Start

  datatype Handler =
    | DoStart | DoStop | DoExpire | DoIgnore | DoConnectCheck | DoConnectSuccess | DoConnectFail
    | DoHelloConfirm | DoProcess

  datatype Session = NoSession | Down | Up

  // What a handler did, for the record.
  datatype Act = Started | Opened | ConnectFailed | Confirmed | Stopped | Disabled

  const CONNECT_INTERVAL_DEFAULT: nat := 1
  const CONNECT_INTERVAL_MAX: nat := 60

  // tls: the session runs TLS over its socket.
  datatype Chan = Chan(
    dpid: u64, status: Status, alive: bool, session: Session, tls: bool, interval: nat, log: seq<Act>)

  datatype Mode = OpenFlow | Secure | Standalone

  datatype FailMode = FailSecure | FailStandalone

  function ModeAfter(f: FailMode): Mode
  {
    if f == FailSecure then Secure else Standalone
  }

  // The mode and the configured fail mode are kept per bridge.
  datatype World = World(chans: seq<Chan>, modes: map<u64, Mode>, failModes: map<u64, FailMode>)

  // The answers of the environment during one step: how the connect call ends and whether it
  // leaves the socket open when it fails, how often the check of an open TLS session finds the
  // handshake still in progress, what the check of an open session finds then, and whether the
  // ping timer can be set up.
  datatype Answers = Answers(connects: bool, leavesOpen: bool, pending: nat, accepted: bool, timer: bool)

  predicate Valid(w: World)
  {
    w.modes.Keys == w.failModes.Keys
  }

  // channel_is_alive.
  predicate IsAlive(c: Chan)
  {
    c.alive && (c.status == Established || c.status == HelloSent) && c.session == Up
  }

  // channel_mgr_has_alive_channel_by_dpid.
  predicate HasAlive(w: World, dpid: u64)
  {
    exists i :: 0 <= i < |w.chans| && w.chans[i].dpid == dpid && IsAlive(w.chans[i])
  }

  // The transition table: the handler and the status that follows it.
  function Fsm(s: Status, e: Event): (Handler, Status)
  {
    match s
    case Idle =>
      (match e case Start => (DoStart, Connect) case Expired => (DoExpire, Disable) case _ => (DoStop, Idle))
    case Connect =>
      (match e
       case Start => (DoConnectCheck, Connect)
       case Expired => (DoExpire, Disable)
       case Open => (DoConnectSuccess, HelloSent)
       case Failed => (DoConnectFail, Idle)
       case _ => (DoStop, Idle))
    case HelloSent =>
      (match e
       case Start => (DoIgnore, HelloSent)
       case Expired => (DoExpire, Disable)
       case Hello => (DoHelloConfirm, Established)
       case _ => (DoStop, Idle))
    case Established =>
      (match e
       case Start => (DoIgnore, Established)
       case Expired => (DoExpire, Disable)
       case Hello => (DoProcess, Established)
       case Message => (DoProcess, Established)
       case _ => (DoStop, Idle))
    case Disable =>
      (match e case Expired => (DoExpire, Disable) case _ => (DoIgnore, Disable))
  }

  function Put(w: World, i: nat, c: Chan): (r: World)
    requires i < |w.chans|
    ensures |r.chans| == |w.chans|
  {
    w.(chans := w.chans[i := c])
  }

  // channel_update, without the timer that restarts an idle channel.
  function Update(w: World, i: nat, next: Status): (r: World)
    requires i < |w.chans|
    ensures |r.chans| == |w.chans|
  {
    var c := w.chans[i];
    Put(w, i, c.(status := next, log := if next == Disable && c.status != Disable then c.log + [Disabled] else c.log))
  }

  // channel_start.
  function StartConnect(w: World, i: nat, a: Answers): (r: (World, bool))
    requires i < |w.chans|
    ensures |r.0.chans| == |w.chans|
  {
    var c := w.chans[i];
    if c.session != Down then (w, false)
    else if !a.connects then (Put(w, i, c.(session := if a.leavesOpen then Up else Down)), false)
    else (Put(w, i, c.(session := Up, alive := true, log := c.log + [Started])), true)
  }

  // session_close: close_default closes the socket; close_tls shuts TLS down and leaves it open.
  function Closed(c: Chan): Chan
  {
    c.(session := if c.session == Up && !c.tls then Down else c.session, log := c.log + [Stopped])
  }

  function CloseSession(w: World, i: nat): (r: World)
    requires i < |w.chans|
    ensures |r.chans| == |w.chans|
  {
    Put(w, i, Closed(w.chans[i]))
  }

  // channel_stop.
  function StopChannel(w: World, i: nat): (r: World)
    requires i < |w.chans|
    ensures |r.chans| == |w.chans|
  {
    var v := CloseSession(w, i);
    var d := v.chans[i].dpid;
    if !HasAlive(v, d) && d in v.modes && d in v.failModes
    then v.(modes := v.modes[d := ModeAfter(v.failModes[d])])
    else v
  }

  // channel_connect_success.
  function ConnectSuccess(w: World, i: nat): (r: World)
    requires i < |w.chans|
    ensures |r.chans| == |w.chans|
  {
    var c := w.chans[i];
    Put(w, i, c.(interval := CONNECT_INTERVAL_DEFAULT, log := c.log + [Opened]))
  }

  function Doubled(interval: nat): nat
  {
    if interval * 2 >= CONNECT_INTERVAL_MAX then CONNECT_INTERVAL_MAX else interval * 2
  }

  function AfterFail(c: Chan): Chan
  {
    c.(interval := Doubled(c.interval), log := c.log + [ConnectFailed])
  }

  // channel_connect_fail.
  function ConnectFail(w: World, i: nat): (r: World)
    requires i < |w.chans|
    ensures |r.chans| == |w.chans|
  {
    StopChannel(Put(w, i, AfterFail(w.chans[i])), i)
  }

  // channel_hello_confirm: the mode is set before the timer, whose failure keeps the status.
  function HelloConfirm(w: World, i: nat): (r: World)
    requires i < |w.chans|
    ensures |r.chans| == |w.chans|
  {
    var c := w.chans[i];
    var v := if c.dpid in w.modes then w.(modes := w.modes[c.dpid := OpenFlow]) else w;
    Put(v, i, c.(log := c.log + [Confirmed]))
  }

  // The handlers that dispatch no event of their own: the new state and whether they succeed.
  function Handle(h: Handler, w: World, i: nat, a: Answers): (r: (World, bool))
    requires i < |w.chans| && h != DoConnectCheck
    ensures |r.0.chans| == |w.chans|
  {
    match h
    case DoStart => StartConnect(w, i, a)
    case DoStop => (StopChannel(w, i), true)
    case DoExpire => (StopChannel(w, i), true)
    case DoIgnore => (w, true)
    case DoConnectSuccess => (ConnectSuccess(w, i), true)
    case DoConnectFail => (ConnectFail(w, i), true)
    case DoHelloConfirm => (HelloConfirm(w, i), a.timer)
    case DoProcess => (w, true)
  }

  // channel_event_nolock: the next status is looked up before the handler runs.
  function Dispatch(w: World, i: nat, e: Event, a: Answers): (r: World)
    requires i < |w.chans|
    ensures |r.chans| == |w.chans|
    decreases a.pending, if e == Start then 2 else 0
  {
    var (h, next) := Fsm(w.chans[i].status, e);
    if h == DoConnectCheck then Update(ConnectCheck(w, i, a), i, next)
    else
      var (v, ok) := Handle(h, w, i, a);
      if ok then Update(v, i, next) else v
  }

  // session_connect_check fails without an open socket, and only TLS reports a handshake in
  // progress.
  predicate InProgress(c: Chan, a: Answers)
  {
    c.session == Up && c.tls && a.pending > 0
  }

  // The event the connect check ends with.
  function Verdict(c: Chan, a: Answers): Event
  {
    if c.session == Up && a.accepted then Open else Failed
  }

  // channel_connect_check.
  function ConnectCheck(w: World, i: nat, a: Answers): (r: World)
    requires i < |w.chans|
    ensures |r.chans| == |w.chans|
    decreases a.pending, 1
  {
    if w.chans[i].status == Disable then Dispatch(w, i, Expired, a)
    else if InProgress(w.chans[i], a) then Dispatch(w, i, Start, a.(pending := a.pending - 1))
    else Dispatch(w, i, Verdict(w.chans[i], a), a)
  }

  // channel_enable and channel_disable.
  function EnableChannel(w: World, i: nat): (r: World)
    requires i < |w.chans|
  {
    Update(w, i, Idle)
  }

  function DisableChannel(w: World, i: nat): (r: World)
    requires i < |w.chans|
  {
    if w.chans[i].alive then Update(Put(w, i, w.chans[i].(alive := false)), i, Disable) else w
  }

  // channel_dpid_set.
  function SetDpid(w: World, i: nat, dpid: u64): (r: World)
    requires i < |w.chans|
  {
    if IsAlive(w.chans[i]) then w else Put(w, i, w.chans[i].(dpid := dpid))
  }

  // channel_protocol_set: BUSY while the socket is open, else a new session.
  function SetProtocol(w: World, i: nat, tls: bool): (r: World)
    requires i < |w.chans|
  {
    var c := w.chans[i];
    if c.session == Up || c.tls == tls then w else Put(w, i, c.(tls := tls, session := Down))
  }

  datatype Step =
    | Deliver(i: nat, event: External, answers: Answers)
    | SocketReady(i: nat, answers: Answers)
    | Enable(i: nat)
    | Disabling(i: nat)
    | ChangeDpid(i: nat, dpid: u64)
    | ChangeProtocol(i: nat, tls: bool)

  function Apply(w: World, s: Step): (r: World)
    ensures |r.chans| == |w.chans|
  {
    if s.i >= |w.chans| then w
    else
      match s
      case Deliver(i, e, a) => Dispatch(w, i, e, a)
      case SocketReady(i, a) => if w.chans[i].status in {Connect, Disable} then ConnectCheck(w, i, a) else w
      case Enable(i) => EnableChannel(w, i)
      case Disabling(i) => DisableChannel(w, i)
      case ChangeDpid(i, d) => SetDpid(w, i, d)
      case ChangeProtocol(i, t) => SetProtocol(w, i, t)
  }

  function RunAll(w: World, steps: seq<Step>): (r: World)
    ensures |r.chans| == |w.chans|
  {
    if steps == [] then w
    else Apply(RunAll(w, steps[..|steps| - 1]), steps[|steps| - 1])
  }

  // A channel as it is allocated.
  predicate Fresh(c: Chan)
  {
    c.status == Disable && !c.alive && c.session != Up && c.interval == CONNECT_INTERVAL_DEFAULT && c.log == []
  }

  predicate Initial(w: World)
  {
    && Valid(w)
    && (forall i :: 0 <= i < |w.chans| ==> Fresh(w.chans[i]))
    && (forall d <- w.modes :: w.modes[d] == Standalone)
  }

  // Where a history starts: when the channel was last disabled, or already when its connection
  // was last stopped.
  datatype Scope = SinceDisabled | SinceStopped

  predicate Cuts(scope: Scope, a: Act)
  {
    a == Disabled || (scope == SinceStopped && a == Stopped)
  }

  // How far a channel has come in that history: a successful start, then an open connection,
  // then a confirmed hello.
  function Stage(log: seq<Act>, scope: Scope): nat
  {
    if log == [] then 0 else NextStage(Stage(log[..|log| - 1], scope), log[|log| - 1], scope)
  }

  function NextStage(before: nat, a: Act, scope: Scope): nat
  {
    if Cuts(scope, a) then 0
    else
      match a
      case Started => if before == 0 then 1 else before
      case Opened => if before == 1 then 2 else before
      case Confirmed => if before == 2 then 3 else before
      case _ => before
  }

  // Connect failures since the last successful connect.
  function Failures(log: seq<Act>): nat
  {
    if log == [] then 0
    else
      match log[|log| - 1]
      case ConnectFailed => Failures(log[..|log| - 1]) + 1
      case Opened => 0
      case _ => Failures(log[..|log| - 1])
  }

  function Pow2(k: nat): nat
  {
    if k == 0 then 1 else 2 * Pow2(k - 1)
  }

  function Min(a: nat, b: nat): nat
  {
    if a < b then a else b
  }

  function Rank(s: Status): nat
  {
    match s
    case Connect => 1
    case HelloSent => 2
    case Established => 3
    case _ => 0
  }

  predicate ChanOk(c: Chan)
  {
    && (Rank(c.status) > 0 ==> c.alive)
    && Rank(c.status) <= Stage(c.log, SinceDisabled)
    && c.interval == Min(Pow2(Failures(c.log)), CONNECT_INTERVAL_MAX)
  }

  predicate ModeOk(w: World)
  {
    forall i :: 0 <= i < |w.chans| ==> ModeFits(w.modes, w.chans[i])
  }

  // An established channel with its session up has its bridge in OpenFlow mode.
  predicate ModeFits(modes: map<u64, Mode>, c: Chan)
  {
    c.status == Established && c.session == Up && c.dpid in modes ==> modes[c.dpid] == OpenFlow
  }

  predicate Inv(w: World)
  {
    Valid(w) && (forall i :: 0 <= i < |w.chans| ==> ChanOk(w.chans[i])) && ModeOk(w)
  }

  lemma Snoc(log: seq<Act>, a: Act)
    ensures forall scope :: Stage(log + [a], scope) == NextStage(Stage(log, scope), a, scope)
    ensures Failures(log + [a]) == match a
      case ConnectFailed => Failures(log) + 1
      case Opened => 0
      case _ => Failures(log)
  {
    assert (log + [a])[..|log|] == log;
  }

  // One channel changes and stays consistent: so does the whole.
  lemma PutKeeps(w: World, i: nat, c: Chan)
    requires Inv(w) && i < |w.chans| && ChanOk(c)
    requires ModeFits(w.modes, c)
    ensures Inv(Put(w, i, c))
  {
  }

  // What a channel needs to enter a status.
  predicate MayEnter(w: World, i: nat, next: Status)
    requires i < |w.chans|
  {
    && (next != Disable ==> Rank(next) <= Stage(w.chans[i].log, SinceDisabled))
    && (Rank(next) > 0 ==> w.chans[i].alive)
    && ModeFits(w.modes, w.chans[i].(status := next))
  }

  lemma UpdateKeeps(w: World, i: nat, next: Status)
    requires Inv(w) && i < |w.chans| && MayEnter(w, i, next)
    ensures Inv(Update(w, i, next))
  {
    Snoc(w.chans[i].log, Disabled);
    PutKeeps(w, i, Update(w, i, next).chans[i]);
  }

  // Taking the fail mode is safe when no channel of the bridge is alive.
  lemma FailModeKeeps(w: World, d: u64)
    requires Inv(w) && !HasAlive(w, d) && d in w.modes
    ensures Inv(w.(modes := w.modes[d := ModeAfter(w.failModes[d])]))
  {
  }

  lemma StopKeeps(w: World, i: nat)
    requires Inv(w) && i < |w.chans|
    ensures
      var v := StopChannel(w, i);
      && Inv(v) && MayEnter(v, i, Idle) && MayEnter(v, i, Disable)
      && v.chans[i].alive == w.chans[i].alive
      && Stage(v.chans[i].log, SinceDisabled) == Stage(w.chans[i].log, SinceDisabled)
  {
    Snoc(w.chans[i].log, Stopped);
    PutKeeps(w, i, CloseSession(w, i).chans[i]);
    var v := CloseSession(w, i);
    if !HasAlive(v, v.chans[i].dpid) && v.chans[i].dpid in v.modes {
      FailModeKeeps(v, v.chans[i].dpid);
    }
  }

  // What a dispatch guarantees of its own channel when it starts in Connect and does not expire.
  predicate StillConnecting(c: Chan)
  {
    c.alive && Stage(c.log, SinceDisabled) >= 1
  }

  lemma ConnectSuccessKeeps(w: World, i: nat)
    requires Inv(w) && i < |w.chans| && w.chans[i].status == Connect
    ensures
      var v := ConnectSuccess(w, i);
      Inv(v) && MayEnter(v, i, HelloSent) && StillConnecting(v.chans[i])
  {
    assert ChanOk(w.chans[i]);
    Snoc(w.chans[i].log, Opened);
    PutKeeps(w, i, ConnectSuccess(w, i).chans[i]);
  }

  lemma AfterFailOk(w: World, i: nat)
    requires Inv(w) && i < |w.chans| && w.chans[i].status == Connect
    ensures Inv(Put(w, i, AfterFail(w.chans[i]))) && StillConnecting(AfterFail(w.chans[i]))
  {
    assert ChanOk(w.chans[i]);
    Snoc(w.chans[i].log, ConnectFailed);
    PutKeeps(w, i, AfterFail(w.chans[i]));
  }

  lemma ConnectFailKeeps(w: World, i: nat)
    requires Inv(w) && i < |w.chans| && w.chans[i].status == Connect
    ensures
      var v := ConnectFail(w, i);
      Inv(v) && MayEnter(v, i, Idle) && StillConnecting(v.chans[i])
  {
    hide StopChannel;
    hide Inv;
    hide Stage;
    hide MayEnter;
    AfterFailOk(w, i);
    StopKeeps(Put(w, i, AfterFail(w.chans[i])), i);
  }

  lemma StartKeeps(w: World, i: nat, a: Answers)
    requires Inv(w) && i < |w.chans| && w.chans[i].status == Idle
    ensures
      var (v, ok) := StartConnect(w, i, a);
      Inv(v) && (ok ==> MayEnter(v, i, Connect))
  {
    Snoc(w.chans[i].log, Started);
    PutKeeps(w, i, StartConnect(w, i, a).0.chans[i]);
  }

  lemma HelloKeeps(w: World, i: nat)
    requires Inv(w) && i < |w.chans| && w.chans[i].status == HelloSent
    ensures Inv(HelloConfirm(w, i)) && MayEnter(HelloConfirm(w, i), i, Established)
  {
    Snoc(w.chans[i].log, Confirmed);
    var c := w.chans[i];
    var v := if c.dpid in w.modes then w.(modes := w.modes[c.dpid := OpenFlow]) else w;
    assert Inv(v);
    PutKeeps(v, i, HelloConfirm(w, i).chans[i]);
  }

  lemma HandleKeeps(w: World, i: nat, e: Event, a: Answers)
    requires Inv(w) && i < |w.chans| && !(w.chans[i].status == Connect && e == Start)
    ensures
      var (h, next) := Fsm(w.chans[i].status, e);
      var (v, ok) := Handle(h, w, i, a);
      && Inv(v) && (ok ==> MayEnter(v, i, next))
      && (w.chans[i].status == Connect && (e == Open || e == Failed) ==> ok && StillConnecting(v.chans[i]))
  {
    hide Inv;
    hide MayEnter;
    hide StillConnecting;
    hide StopChannel;
    hide StartConnect;
    hide ConnectSuccess;
    hide ConnectFail;
    hide HelloConfirm;
    match Fsm(w.chans[i].status, e).0
    case DoStart => StartKeeps(w, i, a);
    case DoStop => StopKeeps(w, i);
    case DoExpire => StopKeeps(w, i);
    case DoIgnore => IgnoreKeeps(w, i);
    case DoConnectSuccess => ConnectSuccessKeeps(w, i);
    case DoConnectFail => ConnectFailKeeps(w, i);
    case DoHelloConfirm => HelloKeeps(w, i);
    case DoProcess => IgnoreKeeps(w, i);
  }

  lemma IgnoreKeeps(w: World, i: nat)
    requires Inv(w) && i < |w.chans|
    ensures MayEnter(w, i, w.chans[i].status)
  {
    assert ChanOk(w.chans[i]) && ModeFits(w.modes, w.chans[i]);
  }

  lemma DispatchSimple(w: World, i: nat, e: Event, a: Answers)
    requires Inv(w) && i < |w.chans| && !(w.chans[i].status == Connect && e == Start)
    ensures Inv(Dispatch(w, i, e, a))
    ensures w.chans[i].status == Connect && (e == Open || e == Failed) ==>
      StillConnecting(Dispatch(w, i, e, a).chans[i])
  {
    HandleKeeps(w, i, e, a);
    hide Inv;
    hide Handle;
    hide Stage;
    hide MayEnter;
    var (h, next) := Fsm(w.chans[i].status, e);
    var (v, ok) := Handle(h, w, i, a);
    if ok {
      UpdateKeeps(v, i, next);
    }
  }

  lemma {:induction false} ConnectCheckKeeps(w: World, i: nat, a: Answers)
    requires Inv(w) && i < |w.chans| && w.chans[i].status == Connect
    ensures Inv(ConnectCheck(w, i, a)) && StillConnecting(ConnectCheck(w, i, a).chans[i])
    decreases a.pending, 0
  {
    hide Inv;
    hide Stage;
    if InProgress(w.chans[i], a) {
      NestedStartKeeps(w, i, a.(pending := a.pending - 1));
    } else {
      hide Dispatch;
      DispatchSimple(w, i, Verdict(w.chans[i], a), a);
    }
  }

  lemma {:induction false} NestedStartKeeps(w: World, i: nat, a: Answers)
    requires Inv(w) && i < |w.chans| && w.chans[i].status == Connect
    ensures Inv(Dispatch(w, i, Start, a)) && StillConnecting(Dispatch(w, i, Start, a).chans[i])
    decreases a.pending, 1
  {
    ConnectCheckKeeps(w, i, a);
    hide ConnectCheck;
    hide Inv;
    hide Stage;
    UpdateKeeps(ConnectCheck(w, i, a), i, Connect);
  }

  lemma DispatchKeeps(w: World, i: nat, e: Event, a: Answers)
    requires Inv(w) && i < |w.chans|
    ensures Inv(Dispatch(w, i, e, a))
  {
    hide *;
    if w.chans[i].status == Connect && e == Start {
      NestedStartKeeps(w, i, a);
    } else {
      DispatchSimple(w, i, e, a);
    }
  }

  lemma ApplyKeeps(w: World, s: Step)
    requires Inv(w)
    ensures Inv(Apply(w, s))
  {
    if s.i < |w.chans| {
      match s
      case Deliver(i, e, a) => DispatchKeeps(w, i, e, a); hide Dispatch;
      case SocketReady(i, a) =>
        if w.chans[i].status == Connect {
          ConnectCheckKeeps(w, i, a);
        } else {
          DispatchKeeps(w, i, Expired, a);
        }
        hide Dispatch;
      case Enable(i) => UpdateKeeps(w, i, Idle);
      case Disabling(i) => DisableKeeps(w, i);
      case ChangeDpid(i, d) => SetDpidKeeps(w, i, d);
      case ChangeProtocol(i, t) => SetProtocolKeeps(w, i, t);
    }
  }

  lemma SetProtocolKeeps(w: World, i: nat, tls: bool)
    requires Inv(w) && i < |w.chans|
    ensures Inv(SetProtocol(w, i, tls))
  {
    assert ChanOk(w.chans[i]);
    if w.chans[i].session != Up && w.chans[i].tls != tls {
      PutKeeps(w, i, w.chans[i].(tls := tls, session := Down));
    }
  }

  lemma DisableKeeps(w: World, i: nat)
    requires Inv(w) && i < |w.chans|
    ensures Inv(DisableChannel(w, i))
  {
    var c := DisableChannel(w, i).chans[i];
    Snoc(w.chans[i].log, Disabled);
    PutKeeps(w, i, c);
    assert w.chans[i].alive ==> DisableChannel(w, i).chans == Put(w, i, c).chans;
  }

  lemma SetDpidKeeps(w: World, i: nat, d: u64)
    requires Inv(w) && i < |w.chans|
    ensures Inv(SetDpid(w, i, d))
  {
    assert ChanOk(w.chans[i]);
    if !IsAlive(w.chans[i]) {
      PutKeeps(w, i, w.chans[i].(dpid := d));
    }
  }

  // The invariant of every run.
  lemma {:induction false} RunKeeps(w: World, steps: seq<Step>)
    requires Initial(w)
    ensures Inv(RunAll(w, steps))
  {
    if steps != [] {
      RunKeeps(w, steps[..|steps| - 1]);
      ApplyKeeps(RunAll(w, steps[..|steps| - 1]), steps[|steps| - 1]);
    }
  }

  // In every run: an established channel whose session is up has its bridge in OpenFlow mode.
  lemma EstablishedMeansOpenFlow(w: World, steps: seq<Step>, i: nat)
    requires Initial(w) && i < |RunAll(w, steps).chans|
    ensures
      var r := RunAll(w, steps);
      r.chans[i].status == Established && r.chans[i].session == Up && r.chans[i].dpid in r.modes ==>
        r.modes[r.chans[i].dpid] == OpenFlow
  {
    RunKeeps(w, steps);
    assert ModeFits(RunAll(w, steps).modes, RunAll(w, steps).chans[i]);
  }

  // In every run: Connect, HelloSent and Established imply the alive flag.
  lemma ConnectingMeansAlive(w: World, steps: seq<Step>, i: nat)
    requires Initial(w) && i < |RunAll(w, steps).chans|
    requires RunAll(w, steps).chans[i].status in {Connect, HelloSent, Established}
    ensures RunAll(w, steps).chans[i].alive
  {
    RunKeeps(w, steps);
    assert ChanOk(RunAll(w, steps).chans[i]);
  }

  // In every run: the reconnect interval is 2^k seconds, at most 60, after k failures in a row.
  lemma IntervalIsBackoff(w: World, steps: seq<Step>, i: nat)
    requires Initial(w) && i < |RunAll(w, steps).chans|
    ensures
      var c := RunAll(w, steps).chans[i];
      c.interval == Min(Pow2(Failures(c.log)), 60)
  {
    RunKeeps(w, steps);
    assert ChanOk(RunAll(w, steps).chans[i]);
  }

  // Nothing in log from s on starts the history again.
  ghost predicate Uncut(log: seq<Act>, s: nat, scope: Scope)
    requires s <= |log|
  {
    forall k :: s <= k < |log| ==> !Cuts(scope, log[k])
  }

  lemma {:induction false} StageOne(log: seq<Act>, scope: Scope) returns (s: nat)
    requires Stage(log, scope) >= 1
    ensures s < |log| && log[s] == Started && Uncut(log, s, scope)
  {
    var n := |log| - 1;
    if Stage(log[..n], scope) == 0 {
      s := n;
    } else {
      s := StageOne(log[..n], scope);
    }
  }

  lemma {:induction false} StageTwo(log: seq<Act>, scope: Scope) returns (s: nat, o: nat)
    requires Stage(log, scope) >= 2
    ensures s < o < |log| && log[s] == Started && log[o] == Opened && Uncut(log, s, scope)
  {
    var n := |log| - 1;
    if Stage(log[..n], scope) < 2 {
      s := StageOne(log[..n], scope);
      o := n;
    } else {
      s, o := StageTwo(log[..n], scope);
    }
  }

  lemma {:induction false} StageThree(log: seq<Act>, scope: Scope) returns (s: nat, o: nat, h: nat)
    requires Stage(log, scope) >= 3
    ensures s < o < h < |log| && Uncut(log, s, scope)
    ensures log[s] == Started && log[o] == Opened && log[h] == Confirmed
  {
    var n := |log| - 1;
    if Stage(log[..n], scope) < 3 {
      s, o := StageTwo(log[..n], scope);
      h := n;
    } else {
      s, o, h := StageThree(log[..n], scope);
    }
  }

  // In every run, nested dispatch included: a channel is established only after a successful
  // start, then an open connection, then a confirmed hello, all since it was last disabled.
  lemma EstablishedHistory(w: World, steps: seq<Step>, i: nat) returns (s: nat, o: nat, h: nat)
    requires Initial(w) && i < |RunAll(w, steps).chans|
    requires RunAll(w, steps).chans[i].status == Established
    ensures
      var log := RunAll(w, steps).chans[i].log;
      && s < o < h < |log| && Uncut(log, s, SinceDisabled)
      && log[s] == Started && log[o] == Opened && log[h] == Confirmed
  {
    RunKeeps(w, steps);
    assert ChanOk(RunAll(w, steps).chans[i]);
    s, o, h := StageThree(RunAll(w, steps).chans[i].log, SinceDisabled);
  }

  lemma UpdateTwice(w: World, i: nat)
    requires i < |w.chans|
    ensures Update(Update(w, i, Connect), i, Connect) == Update(w, i, Connect)
  {
  }

  // However often the check finds the connection in progress, the whole nest of dispatches is
  // the verdict's dispatch with the status then written over.
  lemma {:induction false} NestIs(w: World, i: nat, a: Answers)
    requires i < |w.chans| && w.chans[i].status == Connect
    ensures Dispatch(w, i, Start, a) == Update(Dispatch(w, i, Verdict(w.chans[i], a), a), i, Connect)
    decreases a.pending
  {
    if InProgress(w.chans[i], a) {
      var b := a.(pending := a.pending - 1);
      var e := Verdict(w.chans[i], a);
      NestIs(w, i, b);
      assert Dispatch(w, i, e, b) == Dispatch(w, i, e, a);
      UpdateTwice(Dispatch(w, i, e, a), i);
    }
  }

  // So whatever a timer start finds, the channel stays in Connect. A ready socket takes it to
  // HelloSent exactly when the socket is open and the check accepts it at once; an accepted
  // handshake that was first in progress is written over like that of a timer start.
  lemma TimerStartStaysInConnect(w: World, i: nat, a: Answers)
    requires i < |w.chans| && w.chans[i].status == Connect
    ensures Apply(w, Deliver(i, Start, a)).chans[i].status == Connect
    ensures
      var c := w.chans[i];
      Apply(w, SocketReady(i, a)).chans[i].status == HelloSent <==>
        c.session == Up && a.accepted && !InProgress(c, a)
    ensures InProgress(w.chans[i], a) ==>
      Apply(w, SocketReady(i, a)) == Apply(w, Deliver(i, Start, a))
    ensures !InProgress(w.chans[i], a) ==>
      Apply(w, Deliver(i, Start, a)) == Update(Apply(w, SocketReady(i, a)), i, Connect)
  {
    NestIs(w, i, a);
    if InProgress(w.chans[i], a) {
      var b := a.(pending := a.pending - 1);
      NestIs(w, i, b);
      assert Dispatch(w, i, Verdict(w.chans[i], b), b) == Dispatch(w, i, Verdict(w.chans[i], a), a);
    }
  }

  // A handler that stops the channel: it is not alive any more. The bridge takes its fail mode
  // if then none of its channels is, unless the channel is a live TLS one: its socket stays open,
  // so it is still counted while the stop is under way, and the mode is left alone.
  lemma StopSetsFailMode(w: World, i: nat, e: Event, a: Answers)
    requires Inv(w) && i < |w.chans| && Fsm(w.chans[i].status, e).0 in {DoStop, DoExpire, DoConnectFail}
    ensures
      var r, c := Dispatch(w, i, e, a), w.chans[i];
      && !IsAlive(r.chans[i]) && (r.chans[i].session == Up <==> c.tls && c.session == Up)
      && (c.tls && IsAlive(c) ==> r.modes == w.modes)
      && (!(c.tls && IsAlive(c)) && c.dpid in w.modes && !HasAlive(r, c.dpid) ==>
            r.modes == w.modes[c.dpid := if w.failModes[c.dpid] == FailSecure then Secure else Standalone])
      && (HasAlive(r, c.dpid) ==> r.modes == w.modes)
  {
    var c := w.chans[i];
    var (h, next) := Fsm(c.status, e);
    var (v, ok) := Handle(h, w, i, a);
    var r := Dispatch(w, i, e, a);
    assert r == Update(v, i, next);
    if c.tls && IsAlive(c) {
      StoppedTls(w, i);
      OthersAlive(v, r, i, c.dpid);
    } else {
      SameOthers(v, r, i, c.dpid);
    }
  }

  lemma StoppedTls(w: World, i: nat)
    requires i < |w.chans| && w.chans[i].tls && IsAlive(w.chans[i])
    ensures StopChannel(w, i) == CloseSession(w, i)
  {
    assert IsAlive(CloseSession(w, i).chans[i]);
  }

  lemma OthersAlive(v: World, r: World, i: nat, d: u64)
    requires i < |v.chans| == |r.chans| && !IsAlive(r.chans[i])
    requires forall j :: 0 <= j < |v.chans| && j != i ==> v.chans[j] == r.chans[j]
    ensures HasAlive(r, d) ==> HasAlive(v, d)
  {
  }

  // Whether a bridge has a live channel does not depend on one that is not alive.
  lemma SameOthers(v: World, r: World, i: nat, d: u64)
    requires i < |v.chans| == |r.chans|
    requires !IsAlive(v.chans[i]) && !IsAlive(r.chans[i])
    requires forall j :: 0 <= j < |v.chans| && j != i ==> v.chans[j] == r.chans[j]
    ensures HasAlive(v, d) <==> HasAlive(r, d)
  {
  }

  predicate Served(w: World, d: u64)
  {
    exists j :: 0 <= j < |w.chans| && w.chans[j].dpid == d && w.chans[j].session == Up
  }

  // A bridge is in OpenFlow mode only while one of its channels has its session up, and a
  // channel past Connect has.
  predicate Lit(w: World)
  {
    && Valid(w)
    && (forall d <- w.modes :: w.modes[d] == OpenFlow ==> Served(w, d))
    && (forall j :: 0 <= j < |w.chans| && Rank(w.chans[j].status) >= 2 ==> w.chans[j].session == Up)
  }

  predicate ServedByOther(w: World, i: nat, d: u64)
  {
    exists j :: 0 <= j < |w.chans| && j != i && w.chans[j].dpid == d && w.chans[j].session == Up
  }

  // Channel i may be moved to another dpid: it is not the last one that serves a bridge in
  // OpenFlow mode.
  predicate MayLeave(w: World, i: nat, d: u64)
    requires i < |w.chans|
  {
    var c := w.chans[i];
    || IsAlive(c) || d == c.dpid || c.dpid !in w.modes || w.modes[c.dpid] != OpenFlow
    || ServedByOther(w, i, c.dpid)
  }

  predicate KeepsServed(w: World, s: Step)
  {
    s.ChangeDpid? && s.i < |w.chans| ==> MayLeave(w, s.i, s.dpid)
  }

  // The state between a handler and the status update: channel i may have lost its session.
  predicate LitBut(w: World, i: nat)
  {
    && Valid(w)
    && (forall d <- w.modes :: w.modes[d] == OpenFlow ==> Served(w, d))
    && (forall j :: 0 <= j < |w.chans| && j != i && Rank(w.chans[j].status) >= 2 ==> w.chans[j].session == Up)
  }

  lemma LitUpdate(w: World, i: nat, next: Status)
    requires i < |w.chans| && LitBut(w, i) && (Rank(next) >= 2 ==> w.chans[i].session == Up)
    ensures Lit(Update(w, i, next))
  {
    var r := Update(w, i, next);
    forall d | d in r.modes && r.modes[d] == OpenFlow
      ensures Served(r, d)
    {
      var j :| 0 <= j < |w.chans| && w.chans[j].dpid == d && w.chans[j].session == Up;
      assert r.chans[j].dpid == d && r.chans[j].session == Up;
    }
  }

  // A channel changes but keeps its dpid and does not lose its session.
  lemma LitPut(w: World, i: nat, c: Chan)
    requires i < |w.chans| && LitBut(w, i)
    requires c.dpid == w.chans[i].dpid && (w.chans[i].session == Up ==> c.session == Up)
    ensures LitBut(Put(w, i, c), i)
  {
    var r := Put(w, i, c);
    forall d | d in r.modes && r.modes[d] == OpenFlow
      ensures Served(r, d)
    {
      var j :| 0 <= j < |w.chans| && w.chans[j].dpid == d && w.chans[j].session == Up;
      assert r.chans[j].dpid == d && r.chans[j].session == Up;
    }
  }

  // Closing a session: either a live channel still serves the bridge, or the bridge takes its
  // fail mode.
  lemma LitStop(w: World, i: nat)
    requires i < |w.chans| && LitBut(w, i)
    ensures LitBut(StopChannel(w, i), i)
  {
    var v, r := CloseSession(w, i), StopChannel(w, i);
    assert r.chans == v.chans;
    forall d | d in r.modes && r.modes[d] == OpenFlow
      ensures Served(r, d)
    {
      if d == w.chans[i].dpid {
        assert HasAlive(v, d);
      } else {
        var j :| 0 <= j < |w.chans| && w.chans[j].dpid == d && w.chans[j].session == Up;
        assert r.chans[j] == w.chans[j];
      }
    }
  }

  lemma LitHello(w: World, i: nat)
    requires i < |w.chans| && LitBut(w, i) && w.chans[i].session == Up
    ensures LitBut(HelloConfirm(w, i), i)
  {
    var c := w.chans[i];
    var v := if c.dpid in w.modes then w.(modes := w.modes[c.dpid := OpenFlow]) else w;
    forall d | d in v.modes && v.modes[d] == OpenFlow
      ensures Served(v, d)
    {
      if d == c.dpid {
        assert v.chans[i].dpid == d && v.chans[i].session == Up;
      } else {
        assert Served(w, d);
      }
    }
    LitPut(v, i, c.(log := c.log + [Confirmed]));
  }

  lemma LitHandle(w: World, i: nat, e: Event, a: Answers)
    requires Lit(w) && i < |w.chans| && !(w.chans[i].status == Connect && e == Start)
    requires e == Open ==> w.chans[i].session == Up
    ensures
      var (h, next) := Fsm(w.chans[i].status, e);
      var (v, ok) := Handle(h, w, i, a);
      && LitBut(v, i) && (ok && Rank(next) >= 2 ==> v.chans[i].session == Up)
      && (!ok ==> Rank(v.chans[i].status) >= 2 ==> v.chans[i].session == Up)
  {
    assert LitBut(w, i);
    assert Rank(w.chans[i].status) >= 2 ==> w.chans[i].session == Up;
    hide LitBut;
    hide Lit;
    match Fsm(w.chans[i].status, e).0
    case DoStart => LitPut(w, i, StartConnect(w, i, a).0.chans[i]); PutSelf(w, i);
    case DoStop => LitStop(w, i); hide StopChannel;
    case DoExpire => LitStop(w, i); hide StopChannel;
    case DoIgnore =>
    case DoConnectSuccess => LitPut(w, i, ConnectSuccess(w, i).chans[i]);
    case DoConnectFail =>
      LitPut(w, i, AfterFail(w.chans[i]));
      LitStop(Put(w, i, AfterFail(w.chans[i])), i);
      hide StopChannel;
    case DoHelloConfirm => LitHello(w, i);
    case DoProcess =>
  }

  lemma PutSelf(w: World, i: nat)
    requires i < |w.chans|
    ensures Put(w, i, w.chans[i]) == w
  {
  }

  lemma LitDispatch(w: World, i: nat, e: Event, a: Answers)
    requires Lit(w) && i < |w.chans|
    requires e == Open ==> w.chans[i].session == Up
    ensures Lit(Dispatch(w, i, e, a))
  {
    if w.chans[i].status == Connect && e == Start {
      var verdict := Verdict(w.chans[i], a);
      NestIs(w, i, a);
      LitSimple(w, i, verdict, a);
      LitUpdate(Dispatch(w, i, verdict, a), i, Connect);
    } else {
      LitSimple(w, i, e, a);
    }
  }

  lemma LitSimple(w: World, i: nat, e: Event, a: Answers)
    requires Lit(w) && i < |w.chans| && !(w.chans[i].status == Connect && e == Start)
    requires e == Open ==> w.chans[i].session == Up
    ensures Lit(Dispatch(w, i, e, a))
  {
    LitHandle(w, i, e, a);
    hide Handle;
    var (h, next) := Fsm(w.chans[i].status, e);
    var (v, ok) := Handle(h, w, i, a);
    if ok {
      LitUpdate(v, i, next);
    }
  }

  lemma LitApply(w: World, s: Step)
    requires Lit(w)
    ensures Lit(Apply(w, s)) <==> KeepsServed(w, s)
  {
    if s.i < |w.chans| {
      assert LitBut(w, s.i);
      match s
      case Deliver(i, e, a) => LitDispatch(w, i, e, a);
      case SocketReady(i, a) =>
        if w.chans[i].status in {Connect, Disable} {
          LitReady(w, i, a);
        }
      case Enable(i) => LitUpdate(w, i, Idle);
      case Disabling(i) =>
        var c := w.chans[i].(alive := false);
        LitPut(w, i, c);
        LitUpdate(Put(w, i, c), i, Disable);
      case ChangeDpid(i, d) => DetachIff(w, i, d);
      case ChangeProtocol(i, t) => LitProtocol(w, i, t);
    }
  }

  lemma LitProtocol(w: World, i: nat, tls: bool)
    requires Lit(w) && i < |w.chans|
    ensures Lit(SetProtocol(w, i, tls))
  {
    var c, r := w.chans[i], SetProtocol(w, i, tls);
    if c.session != Up && c.tls != tls {
      LitPut(w, i, c.(tls := tls, session := Down));
    }
  }

  lemma LitReady(w: World, i: nat, a: Answers)
    requires Lit(w) && i < |w.chans| && w.chans[i].status in {Connect, Disable}
    ensures Lit(ConnectCheck(w, i, a))
  {
    if w.chans[i].status == Disable {
      LitDispatch(w, i, Expired, a);
    } else if InProgress(w.chans[i], a) {
      LitDispatch(w, i, Start, a.(pending := a.pending - 1));
    } else {
      LitDispatch(w, i, Verdict(w.chans[i], a), a);
    }
  }

  // Moving a channel to another dpid keeps this, unless it was the last one serving a bridge in
  // OpenFlow mode.
  lemma DetachIff(w: World, i: nat, d: u64)
    requires Lit(w) && i < |w.chans|
    ensures Lit(SetDpid(w, i, d)) <==> MayLeave(w, i, d)
  {
    var c, r := w.chans[i], SetDpid(w, i, d);
    if IsAlive(c) || d == c.dpid {
      PutSelf(w, i);
    } else {
      forall x | x in w.modes
        ensures x != c.dpid && Served(w, x) ==> Served(r, x)
        ensures x == c.dpid ==> (Served(r, x) <==> ServedByOther(w, i, x))
      {
        forall j | 0 <= j < |w.chans| && j != i
          ensures r.chans[j] == w.chans[j]
        {
        }
      }
    }
  }

  ghost predicate AllKeepServed(w: World, steps: seq<Step>)
  {
    forall k :: 0 <= k < |steps| ==> KeepsServed(RunAll(w, steps[..k]), steps[k])
  }

  ghost predicate AllLit(w: World, steps: seq<Step>)
  {
    forall m :: 0 <= m <= |steps| ==> Lit(RunAll(w, steps[..m]))
  }

  lemma RunNext(w: World, steps: seq<Step>, k: nat)
    requires k < |steps|
    ensures RunAll(w, steps[..k + 1]) == Apply(RunAll(w, steps[..k]), steps[k])
  {
    hide Apply;
    assert steps[..k + 1][..k] == steps[..k];
  }

  lemma LitAtStart(w: World, steps: seq<Step>)
    requires Initial(w)
    ensures Lit(RunAll(w, steps[..0]))
  {
  }

  lemma {:induction false} LitUpTo(w: World, steps: seq<Step>, m: nat)
    requires Initial(w) && AllKeepServed(w, steps) && m <= |steps|
    ensures Lit(RunAll(w, steps[..m]))
    decreases m
  {
    hide *;
    if m == 0 {
      LitAtStart(w, steps);
    } else {
      LitUpTo(w, steps, m - 1);
      RunNext(w, steps, m - 1);
      KeepsServedAt(w, steps, m - 1);
      LitApply(RunAll(w, steps[..m - 1]), steps[m - 1]);
    }
  }

  lemma KeepsServedAt(w: World, steps: seq<Step>, k: nat)
    requires AllKeepServed(w, steps) && k < |steps|
    ensures KeepsServed(RunAll(w, steps[..k]), steps[k])
  {
  }

  // Over all runs: a bridge in OpenFlow mode has a channel with its session up in every state,
  // and a channel past Connect has its session up, exactly when no step moves the last such
  // channel of a bridge in OpenFlow mode to another dpid.
  lemma OpenFlowIsServed(w: World, steps: seq<Step>)
    requires Initial(w)
    ensures AllLit(w, steps) <==> AllKeepServed(w, steps)
  {
    hide Lit;
    hide RunAll;
    hide KeepsServed;
    if AllKeepServed(w, steps) {
      forall m | 0 <= m <= |steps|
        ensures Lit(RunAll(w, steps[..m]))
      {
        LitUpTo(w, steps, m);
      }
    }
    if AllLit(w, steps) {
      forall k | 0 <= k < |steps|
        ensures KeepsServed(RunAll(w, steps[..k]), steps[k])
      {
        RunNext(w, steps, k);
        assert Lit(RunAll(w, steps[..k + 1]));
        LitApply(RunAll(w, steps[..k]), steps[k]);
      }
    }
  }

  // One channel alone: what a step does to its channel depends on nothing else.

  function Handled(h: Handler, c: Chan, a: Answers): (Chan, bool)
    requires h != DoConnectCheck
  {
    match h
    case DoStart =>
      if c.session != Down then (c, false)
      else if !a.connects then (c.(session := if a.leavesOpen then Up else Down), false)
      else (c.(session := Up, alive := true, log := c.log + [Started]), true)
    case DoStop => (Closed(c), true)
    case DoExpire => (Closed(c), true)
    case DoConnectSuccess => (c.(interval := CONNECT_INTERVAL_DEFAULT, log := c.log + [Opened]), true)
    case DoConnectFail => (Closed(AfterFail(c)), true)
    case DoHelloConfirm => (c.(log := c.log + [Confirmed]), a.timer)
    case DoIgnore => (c, true)
    case DoProcess => (c, true)
  }

  function Entered(c: Chan, next: Status): Chan
  {
    c.(status := next, log := if next == Disable && c.status != Disable then c.log + [Disabled] else c.log)
  }

  // The channel after a dispatch that does not nest.
  function Dispatched(c: Chan, e: Event, a: Answers): Chan
    requires !(c.status == Connect && e == Start)
  {
    var (h, next) := Fsm(c.status, e);
    var (d, ok) := Handled(h, c, a);
    if ok then Entered(d, next) else d
  }

  // The channel after a start in Connect.
  function Nested(c: Chan, a: Answers): Chan
    requires c.status == Connect
  {
    Dispatched(c, Verdict(c, a), a).(status := Connect)
  }

  function Applied(c: Chan, s: Step): Chan
  {
    match s
    case Deliver(_, e, a) => if c.status == Connect && e == Start then Nested(c, a) else Dispatched(c, e, a)
    case SocketReady(_, a) =>
      if c.status == Disable then Dispatched(c, Expired, a)
      else if c.status != Connect then c
      else if InProgress(c, a) then Nested(c, a)
      else Dispatched(c, Verdict(c, a), a)
    case Enable(_) => Entered(c, Idle)
    case Disabling(_) => if c.alive then Entered(c.(alive := false), Disable) else c
    case ChangeDpid(_, d) => if IsAlive(c) then c else c.(dpid := d)
    case ChangeProtocol(_, t) => if c.session == Up || c.tls == t then c else c.(tls := t, session := Down)
  }

  function Alone(c: Chan, steps: seq<Step>, i: nat): Chan
  {
    if steps == [] then c
    else
      var n := |steps| - 1;
      var before := Alone(c, steps[..n], i);
      if steps[n].i == i then Applied(before, steps[n]) else before
  }

  lemma StopLocal(w: World, i: nat)
    requires i < |w.chans|
    ensures StopChannel(w, i).chans == w.chans[i := Closed(w.chans[i])]
  {
    hide HasAlive;
  }

  lemma HandleLocal(h: Handler, w: World, i: nat, a: Answers)
    requires i < |w.chans| && h != DoConnectCheck
    ensures Handle(h, w, i, a).0.chans == w.chans[i := Handled(h, w.chans[i], a).0]
    ensures Handle(h, w, i, a).1 == Handled(h, w.chans[i], a).1
  {
    PutSelf(w, i);
    StopLocal(w, i);
    StopLocal(Put(w, i, AfterFail(w.chans[i])), i);
    hide StopChannel;
  }

  // A dispatch changes its own channel only.
  lemma DispatchLocal(w: World, i: nat, e: Event, a: Answers)
    requires i < |w.chans| && !(w.chans[i].status == Connect && e == Start)
    ensures Dispatch(w, i, e, a).chans == w.chans[i := Dispatched(w.chans[i], e, a)]
  {
    var (h, next) := Fsm(w.chans[i].status, e);
    HandleLocal(h, w, i, a);
    hide Handle;
    hide Handled;
  }

  lemma NestLocal(w: World, i: nat, a: Answers)
    requires i < |w.chans| && w.chans[i].status == Connect
    ensures Dispatch(w, i, Start, a).chans == w.chans[i := Nested(w.chans[i], a)]
  {
    NestIs(w, i, a);
    DispatchLocal(w, i, Verdict(w.chans[i], a), a);
    hide Dispatch;
    hide Dispatched;
  }

  lemma ReadyLocal(w: World, i: nat, a: Answers)
    requires i < |w.chans| && w.chans[i].status in {Connect, Disable}
    ensures ConnectCheck(w, i, a).chans == w.chans[i := Applied(w.chans[i], SocketReady(i, a))]
  {
    hide Dispatch;
    hide Dispatched;
    if w.chans[i].status == Disable {
      DispatchLocal(w, i, Expired, a);
    } else if InProgress(w.chans[i], a) {
      NestLocal(w, i, a.(pending := a.pending - 1));
      NestedAgain(w.chans[i], a);
      hide Nested;
    } else {
      DispatchLocal(w, i, Verdict(w.chans[i], a), a);
    }
  }

  lemma NestedAgain(c: Chan, a: Answers)
    requires c.status == Connect && a.pending > 0
    ensures Nested(c, a.(pending := a.pending - 1)) == Nested(c, a)
  {
  }

  lemma ApplyLocal(w: World, s: Step)
    requires s.i < |w.chans|
    ensures Apply(w, s).chans == w.chans[s.i := Applied(w.chans[s.i], s)]
  {
    PutSelf(w, s.i);
    match s
    case Deliver(i, e, a) =>
      hide Dispatch;
      hide Dispatched;
      hide Nested;
      if w.chans[i].status == Connect && e == Start {
        NestLocal(w, i, a);
      } else {
        DispatchLocal(w, i, e, a);
      }
    case SocketReady(i, a) =>
      hide ConnectCheck;
      hide Dispatched;
      hide Nested;
      if w.chans[i].status in {Connect, Disable} {
        ReadyLocal(w, i, a);
      }
    case Enable(i) =>
    case Disabling(i) =>
    case ChangeDpid(i, d) =>
    case ChangeProtocol(i, t) =>
  }

  // Channels share the mode of their bridge and nothing else: in every run a channel is what its
  // own steps make of it.
  lemma {:induction false} RunLocal(w: World, steps: seq<Step>, i: nat)
    requires i < |w.chans|
    ensures RunAll(w, steps).chans[i] == Alone(w.chans[i], steps, i)
  {
    hide Apply;
    hide Applied;
    if steps != [] {
      var n := |steps| - 1;
      RunLocal(w, steps[..n], i);
      var v := RunAll(w, steps[..n]);
      if steps[n].i < |v.chans| {
        ApplyLocal(v, steps[n]);
      } else {
        ApplyBeyond(v, steps[n]);
      }
    }
  }

  lemma ApplyBeyond(w: World, s: Step)
    requires s.i >= |w.chans|
    ensures Apply(w, s) == w
  {
  }

  lemma AloneOnto(c: Chan, steps: seq<Step>, s: Step, i: nat)
    requires s.i == i
    ensures Alone(c, steps + [s], i) == Applied(Alone(c, steps, i), s)
  {
    hide Applied;
    assert (steps + [s])[..|steps|] == steps;
  }

  // How a channel moves, step by step: into each status it comes in one way only.
  lemma EntersIff(c: Chan, s: Step)
    ensures c.status != Connect ==>
      (Applied(c, s).status == Connect <==>
         c.status == Idle && s.Deliver? && s.event == Start && c.session == Down && s.answers.connects)
    ensures c.status != HelloSent ==>
      (Applied(c, s).status == HelloSent <==>
         && c.status == Connect && s.SocketReady? && c.session == Up && s.answers.accepted
         && !(c.tls && s.answers.pending > 0))
    ensures c.status != Established ==>
      (Applied(c, s).status == Established <==>
         c.status == HelloSent && s.Deliver? && s.event == Hello && s.answers.timer)
    ensures c.status != Disable ==>
      (Applied(c, s).status == Disable <==> (s.Deliver? && s.event == Expired) || (s.Disabling? && c.alive))
    ensures c.status != Idle ==> (Applied(c, s).status == Idle <==> s.Enable? || Drops(c, s))
  {
  }

  // The steps that send a channel that is connecting or connected back to Idle.
  predicate Drops(c: Chan, s: Step)
  {
    match s
    case Deliver(_, e, _) =>
      (match c.status
       case Connect => e in {Stop, Event.Closed, Failed, Hello, Message}
       case HelloSent => e in {Stop, Event.Closed, Failed, Message}
       case Established => e in {Stop, Event.Closed, Failed}
       case _ => false)
    case SocketReady(_, a) => c.status == Connect && !InProgress(c, a) && !(c.session == Up && a.accepted)
    case _ => false
  }

  // The steps that take a channel out of HelloSent or Established, where it is otherwise left
  // alone: received messages and timers do not disturb it.
  predicate Quits(st: Status, alive: bool, s: Step)
  {
    match s
    case Deliver(_, e, a) =>
      e in {Stop, Expired, Event.Closed, Failed} || (st == HelloSent && (e == Message || (e == Hello && a.timer)))
    case Enable(_) => true
    case Disabling(_) => alive
    case _ => false
  }

  lemma QuitsIff(c: Chan, s: Step)
    requires c.status in {HelloSent, Established}
    ensures Applied(c, s).status == c.status <==> !Quits(c.status, c.alive, s)
    ensures !Quits(c.status, c.alive, s) ==> Applied(c, s).alive == c.alive && Applied(c, s).interval == c.interval
  {
  }

  ghost predicate NoneQuits(st: Status, alive: bool, steps: seq<Step>, i: nat)
  {
    forall s <- steps :: s.i == i ==> !Quits(st, alive, s)
  }

  lemma {:induction false} SteadyAlone(c: Chan, steps: seq<Step>, i: nat)
    requires c.status in {HelloSent, Established} && NoneQuits(c.status, c.alive, steps, i)
    ensures
      var d := Alone(c, steps, i);
      d.status == c.status && d.alive == c.alive && d.interval == c.interval
  {
    hide Applied;
    hide Quits;
    if steps != [] {
      var n := |steps| - 1;
      assert steps[n] in steps && forall s <- steps[..n] :: s in steps;
      SteadyAlone(c, steps[..n], i);
      if steps[n].i == i {
        QuitsIff(Alone(c, steps[..n], i), steps[n]);
      }
    }
  }

  lemma SteadyEnds(c: Chan, steps: seq<Step>, s: Step, i: nat)
    requires c.status in {HelloSent, Established} && NoneQuits(c.status, c.alive, steps, i)
    requires s.i == i && Quits(c.status, c.alive, s)
    ensures Alone(c, steps + [s], i).status != c.status
  {
    hide Applied;
    hide Quits;
    SteadyAlone(c, steps, i);
    QuitsIff(Alone(c, steps, i), s);
    AloneOnto(c, steps, s, i);
  }

  lemma {:induction false} FirstQuit(st: Status, alive: bool, steps: seq<Step>, i: nat) returns (m: nat)
    requires !NoneQuits(st, alive, steps, i)
    ensures m < |steps| && steps[m].i == i && Quits(st, alive, steps[m]) && NoneQuits(st, alive, steps[..m], i)
  {
    hide Quits;
    var n := |steps| - 1;
    if NoneQuits(st, alive, steps[..n], i) {
      m := n;
    } else {
      m := FirstQuit(st, alive, steps[..n], i);
      assert steps[..n][..m] == steps[..m];
    }
  }

  // Over all runs: a channel that has sent its hello, or is established, stays so through a run
  // exactly when no step of its own in it is one of these.
  lemma SteadyRun(w: World, steps: seq<Step>, i: nat)
    requires i < |w.chans| && w.chans[i].status in {HelloSent, Established}
    ensures
      var c := w.chans[i];
      (forall m :: 0 <= m <= |steps| ==> RunAll(w, steps[..m]).chans[i].status == c.status)
      <==> NoneQuits(c.status, c.alive, steps, i)
  {
    hide Quits;
    hide RunAll;
    hide Alone;
    var c := w.chans[i];
    if NoneQuits(c.status, c.alive, steps, i) {
      forall m | 0 <= m <= |steps|
        ensures RunAll(w, steps[..m]).chans[i].status == c.status
      {
        RunLocal(w, steps[..m], i);
        SteadyAlone(c, steps[..m], i);
      }
    } else {
      var m := FirstQuit(c.status, c.alive, steps, i);
      assert steps[..m + 1] == steps[..m] + [steps[m]];
      SteadyEnds(c, steps[..m], steps[m], i);
      RunLocal(w, steps[..m + 1], i);
    }
  }

  // The same for Idle, which a start leaves when the session is down and connects.
  predicate LeavesIdle(c: Chan, s: Step)
  {
    match s
    case Deliver(_, e, a) => e == Expired || (e == Start && c.session == Down && a.connects)
    case Disabling(_) => c.alive
    case _ => false
  }

  lemma LeavesIdleIff(c: Chan, s: Step)
    requires c.status == Idle
    ensures Applied(c, s).status == Idle <==> !LeavesIdle(c, s)
  {
  }

  lemma RunStepLocal(w: World, steps: seq<Step>, i: nat, k: nat)
    requires i < |w.chans| && k < |steps|
    ensures
      var c := RunAll(w, steps[..k]).chans[i];
      RunAll(w, steps[..k + 1]).chans[i] == if steps[k].i == i then Applied(c, steps[k]) else c
  {
    hide *;
    RunNext(w, steps, k);
    if steps[k].i < |w.chans| {
      ApplyLocal(RunAll(w, steps[..k]), steps[k]);
    } else {
      ApplyBeyond(RunAll(w, steps[..k]), steps[k]);
    }
  }

  ghost predicate NoneLeavesIdle(w: World, steps: seq<Step>, i: nat)
    requires i < |w.chans|
  {
    forall k :: 0 <= k < |steps| && steps[k].i == i ==> !LeavesIdle(RunAll(w, steps[..k]).chans[i], steps[k])
  }

  lemma RunNone(w: World, steps: seq<Step>)
    ensures RunAll(w, steps[..0]) == w
  {
  }

  lemma {:induction false} IdleUpTo(w: World, steps: seq<Step>, i: nat, m: nat)
    requires i < |w.chans| && w.chans[i].status == Idle && NoneLeavesIdle(w, steps, i) && m <= |steps|
    ensures RunAll(w, steps[..m]).chans[i].status == Idle
    decreases m
  {
    hide LeavesIdle;
    hide RunAll;
    hide Applied;
    if m == 0 {
      RunNone(w, steps);
    } else {
      IdleUpTo(w, steps, i, m - 1);
      RunStepLocal(w, steps, i, m - 1);
      LeavesIdleIff(RunAll(w, steps[..m - 1]).chans[i], steps[m - 1]);
    }
  }

  lemma IdleRun(w: World, steps: seq<Step>, i: nat)
    requires i < |w.chans| && w.chans[i].status == Idle
    ensures (forall m :: 0 <= m <= |steps| ==> RunAll(w, steps[..m]).chans[i].status == Idle)
      <==> NoneLeavesIdle(w, steps, i)
  {
    hide LeavesIdle;
    hide RunAll;
    hide Applied;
    if NoneLeavesIdle(w, steps, i) {
      forall m | 0 <= m <= |steps|
        ensures RunAll(w, steps[..m]).chans[i].status == Idle
      {
        IdleUpTo(w, steps, i, m);
      }
    } else {
      var k :| 0 <= k < |steps| && steps[k].i == i && LeavesIdle(RunAll(w, steps[..k]).chans[i], steps[k]);
      RunStepLocal(w, steps, i, k);
      if RunAll(w, steps[..k]).chans[i].status == Idle {
        LeavesIdleIff(RunAll(w, steps[..k]).chans[i], steps[k]);
        assert RunAll(w, steps[..k + 1]).chans[i].status != Idle;
      }
    }
  }

  // The steps that stop a channel.
  predicate Halts(c: Chan, s: Step)
  {
    match s
    case Deliver(_, e, a) =>
      || e == Expired || Drops(c, s) || (c.status == Idle && e != Start)
      || (c.status == Connect && e == Start && !(c.session == Up && a.accepted))
    case SocketReady(_, a) => c.status == Disable || (c.status == Connect && !(c.session == Up && a.accepted))
    case _ => false
  }

  // When the socket of a channel is opened and closed.
  lemma SessionIff(c: Chan, s: Step)
    ensures
      var d, starts := Applied(c, s), c.status == Idle && s.Deliver? && s.event == Start && c.session == Down;
      && (c.session != Up ==>
            (d.session == Up <==> starts && (s.answers.connects || s.answers.leavesOpen)))
      && (c.session == Up ==> (d.session != Up <==> !c.tls && Halts(c, s)))
  {
  }

  // When its alive flag is set and reset.
  lemma AliveIff(c: Chan, s: Step)
    ensures Applied(c, s).alive <==>
      || (c.alive && !s.Disabling?)
      || (c.status == Idle && s.Deliver? && s.event == Start && c.session == Down && s.answers.connects)
  {
  }

  // What the record of a channel gains in a step.
  function Acts(c: Chan, s: Step): seq<Act>
  {
    var checked := c.status == Connect && (s.SocketReady? || (s.Deliver? && s.event == Start));
    if c.status == Idle && s.Deliver? && s.event == Start then
      if c.session == Down && s.answers.connects then [Started] else []
    else if checked && c.session == Up && s.answers.accepted then [Opened]
    else if checked || (c.status == Connect && s.Deliver? && s.event == Failed) then [ConnectFailed, Stopped]
    else if c.status == HelloSent && s.Deliver? && s.event == Hello then [Confirmed]
    else
      (if Halts(c, s) then [Stopped] else [])
      + (if c.status != Disable && ((s.Disabling? && c.alive) || (s.Deliver? && s.event == Expired))
         then [Disabled] else [])
  }

  lemma LogSums(log: seq<Act>)
    ensures log + [] == log
    ensures log + [ConnectFailed] + [Stopped] == log + [ConnectFailed, Stopped]
    ensures log + [Stopped] + [Disabled] == log + ([Stopped] + [Disabled])
    ensures [Stopped] + [] == [Stopped] && [] + [Disabled] == [Disabled]
  {
  }

  lemma LogDelivered(c: Chan, s: Step)
    requires s.Deliver? && c.status in {Connect, HelloSent}
    ensures Applied(c, s).log == c.log + Acts(c, s)
  {
    LogSums(c.log);
  }

  lemma LogElsewhere(c: Chan, s: Step)
    requires s.Deliver? && c.status !in {Connect, HelloSent}
    ensures Applied(c, s).log == c.log + Acts(c, s)
  {
    LogSums(c.log);
  }

  lemma LogUndelivered(c: Chan, s: Step)
    requires !s.Deliver?
    ensures Applied(c, s).log == c.log + Acts(c, s)
  {
    LogSums(c.log);
  }

  lemma LogIs(c: Chan, s: Step)
    ensures Applied(c, s).log == c.log + Acts(c, s)
  {
    hide *;
    if !s.Deliver? {
      LogUndelivered(c, s);
    } else if c.status in {Connect, HelloSent} {
      LogDelivered(c, s);
    } else {
      LogElsewhere(c, s);
    }
  }

  // A dpid is changed exactly unless the channel is alive, a protocol exactly unless the socket
  // is open.
  lemma ConfiguredIff(c: Chan, i: nat, d: u64, t: bool)
    ensures Applied(c, ChangeDpid(i, d)).dpid == d <==>
      d == c.dpid || !(c.alive && c.status in {HelloSent, Established} && c.session == Up)
    ensures Applied(c, ChangeProtocol(i, t)).tls == t <==> t == c.tls || c.session != Up
    ensures Applied(c, ChangeProtocol(i, t)).tls != c.tls ==> Applied(c, ChangeProtocol(i, t)).session == Down
  {
  }

  lemma SimpleModes(w: World, i: nat, e: Event, a: Answers)
    requires i < |w.chans| && !(w.chans[i].status == Connect && e == Start)
    ensures
      var c, r := w.chans[i], Dispatch(w, i, e, a);
      && (c.status == HelloSent && e == Hello ==>
            r.modes == if c.dpid in w.modes then w.modes[c.dpid := OpenFlow] else w.modes)
      && (Fsm(c.status, e).0 in {DoStart, DoIgnore, DoConnectSuccess, DoProcess} ==> r.modes == w.modes)
  {
    hide StopChannel;
  }

  lemma NestModes(w: World, i: nat, a: Answers)
    requires i < |w.chans| && w.chans[i].status == Connect
    ensures w.chans[i].session == Up && a.accepted ==> Dispatch(w, i, Start, a).modes == w.modes
  {
    NestIs(w, i, a);
    SimpleModes(w, i, Verdict(w.chans[i], a), a);
    hide Dispatch;
  }

  // The modes of the bridges: a hello confirmed sets OpenFlow, whether or not the timer can be
  // set up then, and only a stop changes a mode otherwise.
  lemma ModesIff(w: World, s: Step)
    requires s.i < |w.chans|
    ensures
      var c, greets := w.chans[s.i], w.chans[s.i].status == HelloSent && s.Deliver? && s.event == Hello;
      && (greets ==>
            Apply(w, s).modes == if c.dpid in w.modes then w.modes[c.dpid := OpenFlow] else w.modes)
      && (!greets && !Halts(c, s) ==> Apply(w, s).modes == w.modes)
  {
    match s
    case Deliver(i, e, a) =>
      if w.chans[i].status == Connect && e == Start {
        NestModes(w, i, a);
      } else {
        SimpleModes(w, i, e, a);
      }
      hide Dispatch;
    case SocketReady(i, a) =>
      if w.chans[i].status == Connect {
        ReadyModes(w, i, a);
      }
      hide Dispatch;
    case _ =>
  }

  lemma ReadyModes(w: World, i: nat, a: Answers)
    requires i < |w.chans| && w.chans[i].status == Connect
    ensures w.chans[i].session == Up && a.accepted ==> ConnectCheck(w, i, a).modes == w.modes
  {
    if InProgress(w.chans[i], a) {
      NestModes(w, i, a.(pending := a.pending - 1));
    } else {
      SimpleModes(w, i, Verdict(w.chans[i], a), a);
    }
    hide Dispatch;
  }

  // One connection. Its history starts when the connection before it was stopped. A TLS session
  // is left out as long as its socket is open.
  predicate ConnOk(c: Chan)
  {
    var stage := Stage(c.log, SinceStopped);
    && (Rank(c.status) >= 2 ==> c.session == Up)
    && (c.session != Up ==> stage == 0)
    && (!c.tls ==>
          && (Rank(c.status) >= 2 ==> Rank(c.status) <= stage)
          && (c.status == Connect && c.session == Up ==> stage >= 1))
  }

  lemma ThenStage(log: seq<Act>, a: Act)
    ensures Stage(log + [a], SinceStopped) == NextStage(Stage(log, SinceStopped), a, SinceStopped)
  {
    Snoc(log, a);
  }

  lemma ClosedStage(c: Chan)
    ensures Stage(Closed(c).log, SinceStopped) == 0 && (Closed(c).session == Up <==> c.tls && c.session == Up)
    ensures Stage(Closed(c).log + [Disabled], SinceStopped) == 0
  {
    ThenStage(c.log, Stopped);
    ThenStage(c.log + [Stopped], Disabled);
    hide Stage;
  }

  lemma ConnSimple(c: Chan, e: Event, a: Answers)
    requires ConnOk(c) && !(c.status == Connect && e == Start) && (e == Open ==> c.session == Up)
    ensures ConnOk(Dispatched(c, e, a))
  {
    hide Stage;
    match Fsm(c.status, e).0
    case DoStart => ThenStage(c.log, Started);
    case DoStop => ClosedStage(c);
    case DoExpire => ClosedStage(c);
    case DoConnectSuccess => ThenStage(c.log, Opened);
    case DoConnectFail => ClosedStage(AfterFail(c));
    case DoHelloConfirm => ThenStage(c.log, Confirmed);
    case DoIgnore =>
    case DoProcess =>
  }

  // The overwritten status: after a nested failure a session without TLS is down.
  lemma ConnNested(c: Chan, a: Answers)
    requires ConnOk(c) && c.status == Connect
    ensures ConnOk(Nested(c, a))
  {
    hide Stage;
    if Verdict(c, a) == Open {
      ThenStage(c.log, Opened);
    } else {
      ClosedStage(AfterFail(c));
    }
  }

  // The steps that dispatch nothing.
  lemma ConnSet(c: Chan, s: Step)
    requires ConnOk(c) && !s.Deliver? && !s.SocketReady?
    ensures ConnOk(Applied(c, s))
  {
    ThenStage(c.log, Disabled);
    hide Stage;
  }

  lemma ConnApplied(c: Chan, s: Step)
    requires ConnOk(c)
    ensures ConnOk(Applied(c, s))
  {
    hide Nested;
    hide Dispatched;
    hide ConnOk;
    if s.Deliver? {
      if c.status == Connect && s.event == Start {
        ConnNested(c, s.answers);
      } else {
        ConnSimple(c, s.event, s.answers);
      }
    } else if s.SocketReady? {
      if c.status == Disable {
        ConnSimple(c, Expired, s.answers);
      } else if c.status == Connect && InProgress(c, s.answers) {
        ConnNested(c, s.answers);
      } else if c.status == Connect {
        ConnSimple(c, Verdict(c, s.answers), s.answers);
      }
    } else {
      ConnSet(c, s);
    }
  }

  lemma {:induction false} AloneConnected(c: Chan, steps: seq<Step>, i: nat)
    requires ConnOk(c)
    ensures ConnOk(Alone(c, steps, i))
  {
    hide ConnOk;
    hide Applied;
    if steps != [] {
      var n := |steps| - 1;
      AloneConnected(c, steps[..n], i);
      ConnApplied(Alone(c, steps[..n], i), steps[n]);
    }
  }

  lemma RunConnected(w: World, steps: seq<Step>, i: nat)
    requires Initial(w) && i < |w.chans|
    ensures ConnOk(RunAll(w, steps).chans[i])
  {
    assert ConnOk(w.chans[i]) by {
      assert Fresh(w.chans[i]);
    }
    hide *;
    AloneConnected(w.chans[i], steps, i);
    RunLocal(w, steps, i);
  }

  // In every run, start, open and confirmed hello of an established channel that does not run
  // TLS are all of the present connection, and that is up.
  lemma EstablishedConnection(w: World, steps: seq<Step>, i: nat) returns (s: nat, o: nat, h: nat)
    requires Initial(w) && i < |w.chans|
    requires RunAll(w, steps).chans[i].status == Established && !RunAll(w, steps).chans[i].tls
    ensures
      var log := RunAll(w, steps).chans[i].log;
      && s < o < h < |log| && Uncut(log, s, SinceStopped)
      && log[s] == Started && log[o] == Opened && log[h] == Confirmed
    ensures RunAll(w, steps).chans[i].session == Up
  {
    RunConnected(w, steps, i);
    s, o, h := StageThree(RunAll(w, steps).chans[i].log, SinceStopped);
  }

  lemma NestedFails(c: Chan, a: Answers)
    requires c.status == Connect && Verdict(c, a) == Failed
    ensures
      var d := Nested(c, a);
      && d.status == Connect && Stage(d.log, SinceStopped) == 0
      && d.tls == c.tls && (d.session == Up <==> c.tls && c.session == Up)
  {
    ClosedStage(AfterFail(c));
    hide Stage;
  }

  // A failure found by a start in Connect leaves the channel there with nothing behind its last
  // stop. Its session is then down, unless it runs TLS.
  lemma NestedFailureLeavesConnect(w: World, i: nat, a: Answers)
    requires i < |w.chans| && w.chans[i].status == Connect && Verdict(w.chans[i], a) == Failed
    ensures
      var c, d := w.chans[i], Dispatch(w, i, Start, a).chans[i];
      && d.status == Connect && Stage(d.log, SinceStopped) == 0
      && (d.session == Up <==> c.tls && c.session == Up)
  {
    hide *;
    NestLocal(w, i, a);
    NestedFails(w.chans[i], a);
  }

  // The run that gets there, of any new channel that has a session.
  const DIAL: Answers := Answers(true, true, 0, false, true)
  const KIND: Answers := Answers(true, true, 0, true, true)

  function Failing(i: nat): seq<Step>
  {
    [Enable(i), Deliver(i, Start, DIAL), Deliver(i, Start, DIAL)]
  }

  lemma AfterFailing(c: Chan, i: nat)
    requires Fresh(c) && c.session == Down
    ensures
      var d := Alone(c, Failing(i), i);
      && d.status == Connect && Stage(d.log, SinceStopped) == 0
      && d.tls == c.tls && (d.session == Up <==> c.tls)
  {
    var s1, s2 := [Enable(i)], [Enable(i), Deliver(i, Start, DIAL)];
    AloneOnto(c, [], Enable(i), i);
    AloneOnto(c, s1, Deliver(i, Start, DIAL), i);
    AloneOnto(c, s2, Deliver(i, Start, DIAL), i);
    assert [] + s1 == s1 && s1 + [Deliver(i, Start, DIAL)] == s2;
    assert s2 + [Deliver(i, Start, DIAL)] == Failing(i);
    hide Alone;
    var dialed := Alone(c, s2, i);
    assert dialed.status == Connect && dialed.session == Up && dialed.tls == c.tls;
    NestedFails(dialed, DIAL);
  }

  // A TLS channel can then open and be greeted, without a start behind its last stop.
  function Reviving(i: nat): seq<Step>
  {
    Failing(i) + [SocketReady(i, KIND), Deliver(i, Hello, KIND)]
  }

  lemma RevivedTls(c: Chan, i: nat)
    requires Fresh(c) && c.session == Down && c.tls
    ensures
      var d := Alone(c, Reviving(i), i);
      d.status == Established && Stage(d.log, SinceStopped) == 0
  {
    var ready, hello := SocketReady(i, KIND), Deliver(i, Hello, KIND);
    assert Failing(i) + [ready] + [hello] == Reviving(i);
    hide *;
    AfterFailing(c, i);
    AloneOnto(c, Failing(i), ready, i);
    AloneOnto(c, Failing(i) + [ready], hello, i);
    Revived(Alone(c, Failing(i), i), i);
  }

  lemma Revived(c: Chan, i: nat)
    requires c.status == Connect && c.session == Up && Stage(c.log, SinceStopped) == 0
    ensures
      var d := Applied(Applied(c, SocketReady(i, KIND)), Deliver(i, Hello, KIND));
      d.status == Established && Stage(d.log, SinceStopped) == 0
  {
    ThenStage(c.log, Opened);
    ThenStage(c.log + [Opened], Confirmed);
    hide Stage;
  }

  // An established channel has its three steps behind the last stop.
  ghost predicate HistoryHolds(w: World, i: nat, steps: seq<Step>)
    requires i < |w.chans|
  {
    var c := RunAll(w, steps).chans[i];
    c.status == Established ==> Stage(c.log, SinceStopped) >= 3
  }

  predicate SameProtocol(steps: seq<Step>)
  {
    forall s <- steps :: !s.ChangeProtocol?
  }

  predicate SameSession(c: Chan, d: Chan)
  {
    d.tls == c.tls && (d.session == NoSession <==> c.session == NoSession)
  }

  lemma ProtocolDispatch(c: Chan, e: Event, a: Answers)
    requires !(c.status == Connect && e == Start)
    ensures SameSession(c, Dispatched(c, e, a))
  {
    hide Fsm;
  }

  lemma ProtocolStep(c: Chan, s: Step)
    requires !s.ChangeProtocol?
    ensures SameSession(c, Applied(c, s))
  {
    hide Dispatched;
    if s.Deliver? || s.SocketReady? {
      if c.status == Connect {
        ProtocolDispatch(c, Verdict(c, s.answers), s.answers);
      } else {
        ProtocolDispatch(c, Expired, s.answers);
      }
      if s.Deliver? && !(c.status == Connect && s.event == Start) {
        ProtocolDispatch(c, s.event, s.answers);
      }
    }
  }

  lemma {:induction false} ProtocolStays(c: Chan, steps: seq<Step>, i: nat)
    requires SameProtocol(steps)
    ensures SameSession(c, Alone(c, steps, i))
  {
    hide Applied;
    if steps != [] {
      var n := |steps| - 1;
      ProtocolStays(c, steps[..n], i);
      assert steps[n] in steps;
      ProtocolStep(Alone(c, steps[..n], i), steps[n]);
    }
  }

  // So over all runs of a channel that keeps its protocol, the history of the connection holds
  // exactly when that is not TLS, or when there is no session to connect.
  lemma HistoryIff(w: World, i: nat)
    requires Initial(w) && i < |w.chans|
    ensures (forall steps :: SameProtocol(steps) ==> HistoryHolds(w, i, steps))
      <==> !w.chans[i].tls || w.chans[i].session == NoSession
  {
    assert Fresh(w.chans[i]);
    if w.chans[i].tls && w.chans[i].session == Down {
      var steps := Reviving(i);
      assert SameProtocol(steps);
      RevivedTls(w.chans[i], i);
      RunLocal(w, steps, i);
      assert !HistoryHolds(w, i, steps);
    } else {
      forall steps | SameProtocol(steps)
        ensures HistoryHolds(w, i, steps)
      {
        RunConnected(w, steps, i);
        RunLocal(w, steps, i);
        ProtocolStays(w.chans[i], steps, i);
        hide RunAll;
        hide Alone;
      }
    }
  }

  // A channel in Connect whose socket is closed. Starts find the check failing and keep it
  // there, with a longer interval each time and never a connect.
  predicate Stranded(c: Chan)
  {
    c.status == Connect && c.session != Up
  }

  // The steps of its own that take a channel out of that state.
  predicate Frees(alive: bool, s: Step)
  {
    match s
    case Deliver(_, e, _) => e != Start
    case SocketReady(_, _) => true
    case Enable(_) => true
    case Disabling(_) => alive
    case ChangeDpid(_, _) => false
    case ChangeProtocol(_, _) => false
  }

  function Backoff(interval: nat, k: nat): nat
  {
    if k == 0 then interval else Doubled(Backoff(interval, k - 1))
  }

  function FailLog(k: nat): seq<Act>
  {
    if k == 0 then [] else FailLog(k - 1) + [ConnectFailed, Stopped]
  }

  // The starts delivered to channel i.
  function Starts(steps: seq<Step>, i: nat): nat
  {
    if steps == [] then 0
    else
      var n := |steps| - 1;
      Starts(steps[..n], i) + (if steps[n].i == i && steps[n].Deliver? && steps[n].event == Start then 1 else 0)
  }

  lemma StrandedStep(c: Chan, s: Step)
    requires Stranded(c)
    ensures Stranded(Applied(c, s)) <==> !Frees(c.alive, s)
    ensures !Frees(c.alive, s) ==>
      var d := Applied(c, s);
      && d.alive == c.alive
      && d.interval == (if s.Deliver? then Doubled(c.interval) else c.interval)
      && d.log == c.log + (if s.Deliver? then [ConnectFailed, Stopped] else [])
  {
    assert c.log + [ConnectFailed] + [Stopped] == c.log + [ConnectFailed, Stopped];
  }

  // The state of c after k starts that found it stranded.
  predicate StrandedBy(c: Chan, d: Chan, k: nat)
  {
    && Stranded(d) && d.alive == c.alive
    && d.interval == Backoff(c.interval, k) && d.log == c.log + FailLog(k)
  }

  ghost predicate NoneFrees(alive: bool, steps: seq<Step>, i: nat)
  {
    forall s <- steps :: s.i == i ==> !Frees(alive, s)
  }

  lemma {:induction false} StrandedStays(c: Chan, steps: seq<Step>, i: nat)
    requires Stranded(c) && NoneFrees(c.alive, steps, i)
    ensures StrandedBy(c, Alone(c, steps, i), Starts(steps, i))
  {
    hide Stranded;
    hide Applied;
    if steps == [] {
      assert c.log + [] == c.log;
    } else {
      var n := |steps| - 1;
      assert steps[n] in steps && forall s <- steps[..n] :: s in steps;
      StrandedStays(c, steps[..n], i);
      var d, k := Alone(c, steps[..n], i), Starts(steps[..n], i);
      if steps[n].i == i {
        StrandedStep(d, steps[n]);
        assert c.log + FailLog(k) + [ConnectFailed, Stopped] == c.log + (FailLog(k) + [ConnectFailed, Stopped]);
      }
    }
  }

  // A step that frees it, at the end of others that do not, does so.
  lemma StrandedEnds(c: Chan, steps: seq<Step>, s: Step, i: nat)
    requires Stranded(c) && NoneFrees(c.alive, steps, i) && s.i == i && Frees(c.alive, s)
    ensures !Stranded(Alone(c, steps + [s], i))
  {
    StrandedStays(c, steps, i);
    StrandedStep(Alone(c, steps, i), s);
    AloneOnto(c, steps, s, i);
  }

  // Over all runs: the channel stays stranded through a run exactly when no step of its own in
  // it frees it, and then it never starts a connection again.
  lemma StrandedRun(w: World, steps: seq<Step>, i: nat)
    requires i < |w.chans| && Stranded(w.chans[i])
    ensures
      (forall m :: 0 <= m <= |steps| ==> Stranded(RunAll(w, steps[..m]).chans[i]))
      <==> NoneFrees(w.chans[i].alive, steps, i)
    ensures NoneFrees(w.chans[i].alive, steps, i) ==>
      StrandedBy(w.chans[i], RunAll(w, steps).chans[i], Starts(steps, i))
  {
    hide Stranded;
    var c := w.chans[i];
    if NoneFrees(c.alive, steps, i) {
      forall m | 0 <= m <= |steps|
        ensures Stranded(RunAll(w, steps[..m]).chans[i])
      {
        RunLocal(w, steps[..m], i);
        StrandedStays(c, steps[..m], i);
      }
      RunLocal(w, steps, i);
      StrandedStays(c, steps, i);
    } else {
      var m := FirstFree(c.alive, steps, i);
      assert steps[..m + 1] == steps[..m] + [steps[m]];
      StrandedEnds(c, steps[..m], steps[m], i);
      RunLocal(w, steps[..m + 1], i);
    }
  }

  lemma {:induction false} FirstFree(alive: bool, steps: seq<Step>, i: nat) returns (m: nat)
    requires !NoneFrees(alive, steps, i)
    ensures m < |steps| && steps[m].i == i && Frees(alive, steps[m]) && NoneFrees(alive, steps[..m], i)
  {
    hide Frees;
    var n := |steps| - 1;
    if NoneFrees(alive, steps[..n], i) {
      m := n;
    } else {
      m := FirstFree(alive, steps[..n], i);
      assert steps[..n][..m] == steps[..m];
    }
  }

  // Six starts take the interval to its maximum, where it stays.
  lemma {:induction false} BackoffSettles(interval: nat, k: nat)
    requires 1 <= interval && 6 <= k
    ensures Backoff(interval, k) == 60
  {
    if k == 6 {
      assert Backoff(interval, 1) == Doubled(interval) >= 2;
      assert Backoff(interval, 2) == Doubled(Backoff(interval, 1)) >= 4;
      assert Backoff(interval, 3) == Doubled(Backoff(interval, 2)) >= 8;
      assert Backoff(interval, 4) == Doubled(Backoff(interval, 3)) >= 16;
      assert Backoff(interval, 5) == Doubled(Backoff(interval, 4)) >= 32;
    } else {
      BackoffSettles(interval, k - 1);
    }
  }

  // Every new channel without TLS that has a session can get there.
  lemma StrandedIsReached(w: World, i: nat)
    requires Initial(w) && i < |w.chans| && w.chans[i].session == Down && !w.chans[i].tls
    ensures Stranded(RunAll(w, Failing(i)).chans[i])
  {
    assert Fresh(w.chans[i]);
    AfterFailing(w.chans[i], i);
    RunLocal(w, Failing(i), i);
    hide Stage;
    hide RunAll;
    hide Alone;
  }

  // A TLS channel that was stopped: its socket is open, so it can not be started again.
  predicate ShutDown(c: Chan)
  {
    c.tls && c.session == Up && c.status in {Idle, Disable}
  }

  lemma StoppedThenStarted(c: Chan, e: Event, a: Answers, b: Answers)
    requires c.session == Up && Fsm(c.status, e).0 in {DoStop, DoConnectFail} && b.connects
    ensures
      var stopped := Dispatched(c, e, a);
      && stopped.status == Idle && (ShutDown(stopped) <==> c.tls)
      && (Dispatched(stopped, Start, b).status == Connect <==> !c.tls)
  {
  }

  // A channel that was stopped while its session was up connects again exactly when it does not
  // run TLS.
  lemma RestartIff(w: World, i: nat, e: External, a: Answers, b: Answers)
    requires i < |w.chans| && w.chans[i].session == Up && b.connects
    requires Fsm(w.chans[i].status, e).0 in {DoStop, DoConnectFail}
    ensures
      var v := Apply(w, Deliver(i, e, a));
      && v.chans[i].status == Idle && (ShutDown(v.chans[i]) <==> w.chans[i].tls)
      && (Apply(v, Deliver(i, Start, b)).chans[i].status == Connect <==> !w.chans[i].tls)
  {
    var stop, start := Deliver(i, e, a), Deliver(i, Start, b);
    ApplyLocal(w, stop);
    ApplyLocal(Apply(w, stop), start);
    hide Apply;
    hide Dispatched;
    StoppedThenStarted(w.chans[i], e, a, b);
  }

  lemma ShutDownStep(c: Chan, s: Step)
    requires ShutDown(c)
    ensures ShutDown(Applied(c, s))
  {
  }

  // Over all runs: a TLS channel that was stopped never connects again.
  lemma {:induction false} ShutDownStays(w: World, steps: seq<Step>, i: nat)
    requires i < |w.chans| && ShutDown(w.chans[i])
    ensures ShutDown(RunAll(w, steps).chans[i])
  {
    hide *;
    RunLocal(w, steps, i);
    ShutDownAlone(w.chans[i], steps, i);
  }

  lemma {:induction false} ShutDownAlone(c: Chan, steps: seq<Step>, i: nat)
    requires ShutDown(c)
    ensures ShutDown(Alone(c, steps, i))
  {
    hide ShutDown;
    hide Applied;
    if steps != [] {
      var n := |steps| - 1;
      ShutDownAlone(c, steps[..n], i);
      ShutDownStep(Alone(c, steps[..n], i), steps[n]);
    }
  }

  // A run in which such a step is taken: connect, confirm, disable, detach.
  function OneChannel(c: Chan, m: Mode): World
  {
    World([c], map[7 := m], map[7 := FailSecure])
  }

  function New(tls: bool): Chan
  {
    Chan(7, Disable, false, Down, tls, 1, [])
  }

  function Greeted(tls: bool): Chan
  {
    Chan(7, Established, true, Up, tls, 1, [Started, Opened, Confirmed])
  }

  lemma Dialing(tls: bool)
    ensures
      var w := OneChannel(New(tls), Standalone);
      Apply(Apply(w, Enable(0)), Deliver(0, Start, DIAL)) ==
        OneChannel(Chan(7, Connect, true, Up, tls, 1, [Started]), Standalone)
  {
    var c := New(tls).(status := Idle);
    assert Apply(OneChannel(New(tls), Standalone), Enable(0)).chans == [c];
    assert [] + [Started] == [Started];
    var r := Apply(OneChannel(c, Standalone), Deliver(0, Start, DIAL));
    assert r.chans == [Chan(7, Connect, true, Up, tls, 1, [Started])];
  }

  lemma Opening(tls: bool)
    ensures
      Apply(OneChannel(Chan(7, Connect, true, Up, tls, 1, [Started]), Standalone), SocketReady(0, KIND)) ==
        OneChannel(Chan(7, HelloSent, true, Up, tls, 1, [Started, Opened]), Standalone)
  {
    assert [Started] + [Opened] == [Started, Opened];
    var r := Apply(OneChannel(Chan(7, Connect, true, Up, tls, 1, [Started]), Standalone), SocketReady(0, KIND));
    assert r.chans == [Chan(7, HelloSent, true, Up, tls, 1, [Started, Opened])];
  }

  lemma Confirming(tls: bool)
    ensures
      Apply(OneChannel(Chan(7, HelloSent, true, Up, tls, 1, [Started, Opened]), Standalone), Deliver(0, Hello, KIND)) ==
        OneChannel(Greeted(tls), OpenFlow)
  {
    assert [Started, Opened] + [Confirmed] == [Started, Opened, Confirmed];
    var w := OneChannel(Chan(7, HelloSent, true, Up, tls, 1, [Started, Opened]), Standalone);
    var r := Apply(w, Deliver(0, Hello, KIND));
    assert r.chans == [Greeted(tls)];
    assert r.modes == map[7 := OpenFlow];
  }

  lemma Detached()
    ensures
      var r := Apply(Apply(OneChannel(Greeted(false), OpenFlow), Disabling(0)), ChangeDpid(0, 0));
      r.modes == map[7 := OpenFlow] && r.chans[0].dpid == 0
  {
  }

  lemma RunOnto(w: World, steps: seq<Step>, s: Step)
    ensures RunAll(w, steps + [s]) == Apply(RunAll(w, steps), s)
  {
    hide Apply;
    assert (steps + [s])[..|steps|] == steps;
  }

  lemma RunTwo(w: World, steps: seq<Step>, a: Step, b: Step)
    ensures RunAll(w, steps + [a, b]) == Apply(Apply(RunAll(w, steps), a), b)
  {
    hide *;
    RunOnto(w, steps, a);
    RunOnto(w, steps + [a], b);
    assert steps + [a] + [b] == steps + [a, b];
  }

  function Dialed(): seq<Step>
  {
    [Enable(0), Deliver(0, Start, DIAL)]
  }

  function Greeting(): seq<Step>
  {
    Dialed() + [SocketReady(0, KIND), Deliver(0, Hello, KIND)]
  }

  lemma GreetingEnds(tls: bool)
    ensures RunAll(OneChannel(New(tls), Standalone), Greeting()) == OneChannel(Greeted(tls), OpenFlow)
  {
    var w := OneChannel(New(tls), Standalone);
    assert RunAll(w, []) == w;
    assert [] + Dialed() == Dialed();
    hide OneChannel;
    hide RunAll;
    hide Apply;
    RunTwo(w, [], Enable(0), Deliver(0, Start, DIAL));
    Dialing(tls);
    RunTwo(w, Dialed(), SocketReady(0, KIND), Deliver(0, Hello, KIND));
    Opening(tls);
    Confirming(tls);
  }

  // Nothing takes the bridge out of OpenFlow mode, although no channel is left on it.
  lemma DetachLeavesOpenFlow()
    ensures Initial(OneChannel(New(false), Standalone))
    ensures AllLit(OneChannel(New(false), Standalone), Greeting() + [Disabling(0)])
    ensures
      var r := RunAll(OneChannel(New(false), Standalone), Greeting() + [Disabling(0), ChangeDpid(0, 0)]);
      r.modes == map[7 := OpenFlow] && forall c <- r.chans :: c.dpid != 7
  {
    var w := OneChannel(New(false), Standalone);
    assert Initial(w);
    hide *;
    GreetingIsServed(w);
    GreetingEnds(false);
    RunTwo(w, Greeting(), Disabling(0), ChangeDpid(0, 0));
    Detached();
  }

  lemma GreetingIsServed(w: World)
    requires Initial(w)
    ensures AllLit(w, Greeting() + [Disabling(0)])
  {
    var steps := Greeting() + [Disabling(0)];
    assert forall k :: 0 <= k < |steps| ==> !steps[k].ChangeDpid?;
    hide RunAll;
    OpenFlowIsServed(w, steps);
  }

  // A TLS channel whose controller closes the connection leaves its bridge in OpenFlow mode too,
  // with no channel alive on it and none that will connect again.
  lemma TlsStopKeepsOpenFlow(a: Answers, later: seq<Step>)
    ensures Initial(OneChannel(New(true), Standalone))
    ensures
      var r := RunAll(OneChannel(New(true), Standalone), Greeting() + [Deliver(0, Event.Closed, a)]);
      && r.modes == map[7 := OpenFlow] && !HasAlive(r, 7)
      && ShutDown(RunAll(r, later).chans[0])
  {
    var w := OneChannel(New(true), Standalone);
    assert Initial(w);
    GreetingEnds(true);
    RunOnto(w, Greeting(), Deliver(0, Event.Closed, a));
    hide RunAll;
    ClosedTls(a);
    ShutDownStays(Apply(OneChannel(Greeted(true), OpenFlow), Deliver(0, Event.Closed, a)), later, 0);
  }

  lemma ClosedTls(a: Answers)
    ensures
      var r := Apply(OneChannel(Greeted(true), OpenFlow), Deliver(0, Event.Closed, a));
      r.modes == map[7 := OpenFlow] && !HasAlive(r, 7) && ShutDown(r.chans[0])
  {
    StoppedTls(OneChannel(Greeted(true), OpenFlow), 0);
  }
}

module ChannelAgent {
  import opened Bytes
  import opened Results
  import opened ChannelFsm

  class Channel {
    var dpid: u64
    var status: Status
    var isAlive: bool
    var session: Session
    var tls: bool
    var interval: nat
    ghost var log: seq<Act>

    ghost function Abs(): Chan
      reads this
    {
      Chan(dpid, status, isAlive, session, tls, interval, log)
    }

    // channel_is_alive.
    method Alive() returns (r: bool)
      ensures r == IsAlive(Abs())
    {
      if !isAlive {
        return false;
      }
      if status != Established && status != HelloSent {
        return false;
      }
      if session != Up {
        return false;
      }
      return true;
    }
  }

  class Agent {
    const chans: seq<Channel>
    var modes: map<u64, Mode>
    var failModes: map<u64, FailMode>

    ghost predicate Valid()
    {
      forall i, j :: 0 <= i < j < |chans| ==> chans[i] != chans[j]
    }

    ghost function Abs(): (w: World)
      reads this, chans
      ensures |w.chans| == |chans|
    {
      World(seq(|chans|, k requires 0 <= k < |chans| reads this, chans => chans[k].Abs()), modes, failModes)
    }

    // channel_mgr_has_alive_channel_by_dpid, over the channels of the dpid.
    method HasAliveChannel(dpid: u64) returns (r: bool)
      ensures r == HasAlive(Abs(), dpid)
    {
      ghost var w := Abs();
      var count, k := 0, 0;
      while k < |chans|
        invariant 0 <= k <= |chans| && 0 <= count
        invariant count > 0 ==> HasAlive(Abs(), dpid)
        invariant count == 0 ==> forall j :: 0 <= j < k ==> !(w.chans[j].dpid == dpid && IsAlive(w.chans[j]))
      {
        assert w.chans[k] == chans[k].Abs();
        var alive := chans[k].Alive();
        if chans[k].dpid == dpid && alive {
          count := count + 1;
        }
        k := k + 1;
      }
      r := count != 0;
    }

    // channel_update.
    method UpdateStatus(i: nat, next: Status)
      requires Valid() && i < |chans|
      modifies chans[i]
      ensures Abs() == Update(old(Abs()), i, next)
    {
      ghost var w := Abs();
      if chans[i].status != next {
        chans[i].log := if next == Status.Disable then chans[i].log + [Disabled] else chans[i].log;
        chans[i].status := next;
      }
      assert Abs().chans == w.chans[i := chans[i].Abs()];
    }

    // channel_start.
    method StartConnecting(i: nat, a: Answers) returns (ok: bool)
      requires Valid() && i < |chans|
      modifies chans[i]
      ensures (Abs(), ok) == StartConnect(old(Abs()), i, a)
    {
      ghost var w := Abs();
      var c := chans[i];
      ok := false;
      if c.session == NoSession {
        assert Abs() == w;
        return;
      }
      if c.session == Up {
        assert Abs() == w;
        return;
      }
      if !a.connects {
        c.session := if a.leavesOpen then Up else Down;
        assert Abs().chans == w.chans[i := c.Abs()];
        return;
      }
      c.session := Up;
      c.isAlive := true;
      c.log := c.log + [Started];
      ok := true;
      assert Abs().chans == w.chans[i := c.Abs()];
    }

    // channel_stop.
    method StopConnection(i: nat)
      requires Valid() && i < |chans|
      modifies this`modes, chans[i]
      ensures Abs() == StopChannel(old(Abs()), i)
    {
      ghost var w := Abs();
      var c := chans[i];
      if c.session == Up {
        if !c.tls {
          c.session := Down;
        }
      }
      c.log := c.log + [Stopped];
      assert Abs().chans == w.chans[i := c.Abs()];
      ghost var v := CloseSession(w, i);
      assert Abs() == v && v.chans[i].dpid == c.dpid;
      var alive := HasAliveChannel(c.dpid);
      assert Abs().chans == v.chans;
      assert alive == HasAlive(v, c.dpid);
      if !alive && c.dpid in failModes && c.dpid in modes {
        if failModes[c.dpid] == FailSecure {
          modes := modes[c.dpid := Secure];
        } else {
          modes := modes[c.dpid := Standalone];
        }
      }
      assert Abs().chans == v.chans;
    }

    // channel_connect_success.
    method ConnectSucceeded(i: nat)
      requires Valid() && i < |chans|
      modifies chans[i]
      ensures Abs() == ConnectSuccess(old(Abs()), i)
    {
      ghost var w := Abs();
      chans[i].interval := CONNECT_INTERVAL_DEFAULT;
      chans[i].log := chans[i].log + [Opened];
      assert Abs().chans == w.chans[i := chans[i].Abs()];
    }

    // channel_connect_fail.
    method ConnectFailing(i: nat)
      requires Valid() && i < |chans|
      modifies this`modes, chans[i]
      ensures Abs() == ConnectFail(old(Abs()), i)
    {
      ghost var w := Abs();
      chans[i].interval := chans[i].interval * 2;
      if chans[i].interval >= CONNECT_INTERVAL_MAX {
        chans[i].interval := CONNECT_INTERVAL_MAX;
      }
      chans[i].log := chans[i].log + [ConnectFailed];
      assert Abs().chans == w.chans[i := chans[i].Abs()];
      hide StopChannel;
      StopConnection(i);
    }

    // channel_hello_confirm.
    method ConfirmHello(i: nat, a: Answers) returns (ok: bool)
      requires Valid() && i < |chans|
      modifies this`modes, chans[i]
      ensures Abs() == HelloConfirm(old(Abs()), i) && ok == a.timer
    {
      ghost var w := Abs();
      var c := chans[i];
      if c.dpid in modes {
        modes := modes[c.dpid := OpenFlow];
      }
      c.log := c.log + [Confirmed];
      ok := a.timer;
      assert Abs().chans == w.chans[i := c.Abs()];
    }

    // The handlers of the table, except the connect check.
    method RunHandler(h: Handler, i: nat, a: Answers) returns (ok: bool)
      requires Valid() && i < |chans| && h != DoConnectCheck
      modifies this`modes, chans[i]
      ensures (Abs(), ok) == Handle(h, old(Abs()), i, a)
    {
      hide StopChannel;
      hide StartConnect;
      hide ConnectFail;
      hide ConnectSuccess;
      hide HelloConfirm;
      ok := true;
      match h
      case DoStart => ok := StartConnecting(i, a);
      case DoStop => StopConnection(i);
      case DoExpire => StopConnection(i);
      case DoIgnore =>
      case DoConnectSuccess => ConnectSucceeded(i);
      case DoConnectFail => ConnectFailing(i);
      case DoHelloConfirm => ok := ConfirmHello(i, a);
      case DoProcess =>
    }

    // channel_event_nolock.
    method EventNolock(i: nat, e: Event, a: Answers)
      requires Valid() && i < |chans|
      modifies this`modes, chans[i]
      ensures Abs() == Dispatch(old(Abs()), i, e, a)
      decreases a.pending, if e == Start then 2 else 0
    {
      hide Handle;
      hide ConnectCheck;
      assert Abs().chans[i].status == chans[i].status;
      var (h, next) := Fsm(chans[i].status, e);
      var ok := true;
      if h == DoConnectCheck {
        CheckConnection(i, a);
      } else {
        ok := RunHandler(h, i, a);
      }
      if ok {
        UpdateStatus(i, next);
      }
    }

    // channel_connect_check.
    method CheckConnection(i: nat, a: Answers)
      requires Valid() && i < |chans|
      modifies this`modes, chans[i]
      ensures Abs() == ConnectCheck(old(Abs()), i, a)
      decreases a.pending, 1
    {
      hide Dispatch;
      assert Abs().chans[i].status == chans[i].status;
      if chans[i].status == Status.Disable {
        EventNolock(i, Expired, a);
        return;
      }
      assert Abs().chans[i] == chans[i].Abs();
      var ret := SessionCheck(chans[i], a);
      if ret == OK {
        EventNolock(i, Open, a);
      } else if ret == EINPROGRESS {
        EventNolock(i, Start, a.(pending := a.pending - 1));
      } else {
        EventNolock(i, Failed, a);
      }
    }

    // session_connect_check: getsockopt on the socket, then the check of TLS.
    method SessionCheck(c: Channel, a: Answers) returns (ret: Code)
      ensures ret == EINPROGRESS <==> InProgress(c.Abs(), a)
      ensures ret == OK <==> !InProgress(c.Abs(), a) && Verdict(c.Abs(), a) == Open
    {
      if c.session != Up {
        return ANY_FAILURES;
      }
      if c.tls && a.pending > 0 {
        return EINPROGRESS;
      }
      return if a.accepted then OK else ANY_FAILURES;
    }

    // The connect check that channel_read and channel_write start with.
    method SocketReady(i: nat, a: Answers)
      requires Valid() && i < |chans|
      modifies this`modes, chans[i]
      ensures Abs() == Apply(old(Abs()), Step.SocketReady(i, a))
    {
      hide ConnectCheck;
      assert Abs().chans[i].status == chans[i].status;
      if chans[i].status == Connect || chans[i].status == Status.Disable {
        CheckConnection(i, a);
      }
    }

    // channel_enable.
    method Enable(i: nat)
      requires Valid() && i < |chans|
      modifies chans[i]
      ensures Abs() == EnableChannel(old(Abs()), i)
    {
      UpdateStatus(i, Idle);
    }

    // channel_disable: the session stays as it is.
    method Disable(i: nat)
      requires Valid() && i < |chans|
      modifies chans[i]
      ensures Abs() == DisableChannel(old(Abs()), i)
    {
      ghost var w := Abs();
      assert w.chans[i].alive == chans[i].isAlive;
      if chans[i].isAlive {
        chans[i].isAlive := false;
        assert Abs().chans == w.chans[i := chans[i].Abs()];
        UpdateStatus(i, Status.Disable);
      }
    }

    // channel_protocol_set.
    method ProtocolSet(i: nat, tls: bool) returns (ret: Code)
      requires Valid() && i < |chans|
      modifies chans[i]
      ensures Abs() == SetProtocol(old(Abs()), i, tls)
      ensures ret == if old(Abs()).chans[i].session == Up then BUSY else OK
    {
      ghost var w := Abs();
      var c := chans[i];
      assert w.chans[i] == c.Abs();
      ret := BUSY;
      if c.session != Up {
        if c.tls != tls {
          c.tls := tls;
          c.session := Down;
          assert Abs().chans == w.chans[i := c.Abs()];
        }
        ret := OK;
      }
    }

    // channel_dpid_set.
    method DpidSet(i: nat, dpid: u64) returns (ret: Code)
      requires Valid() && i < |chans|
      modifies chans[i]
      ensures Abs() == SetDpid(old(Abs()), i, dpid)
      ensures ret == if IsAlive(old(Abs()).chans[i]) then BUSY else OK
    {
      ghost var w := Abs();
      assert w.chans[i] == chans[i].Abs();
      var alive := chans[i].Alive();
      ret := BUSY;
      if !alive {
        chans[i].dpid := dpid;
        ret := OK;
        assert Abs().chans == w.chans[i := chans[i].Abs()];
      }
    }
  }
}
