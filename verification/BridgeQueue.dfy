// The bridge-queue manager: a table of reference-counted queues shared by the agent's
// threads, and an array that caches the table's contents for the main loop. Every operation
// runs under the manager's lock, so a run is a sequence of whole operations.

module BridgeRefs {
  import opened Bytes
  import opened Results

  const MAX_BRIDGES: nat := 512

  // refs holds the counter of every queue that has not been freed.
  datatype State<Q> = State(table: map<u64, Q>, refs: map<Q, nat>, cache: seq<Q>)

  // One operation and what it returned: a lookup and a snapshot hand out references, and a
  // release gives references back.
  datatype Event<Q> =
    | Register(dpid: u64, queue: Q, ret: Code)
    | Unregister(dpid: u64, ret: Code)
    | Lookup(dpid: u64, got: seq<Q>)
    | Snapshot(got: seq<Q>)
    | Release(queues: seq<Q>)

  predicate Distinct<Q(==)>(s: seq<Q>)
  {
    forall i, j :: 0 <= i < j < |s| ==> s[i] != s[j]
  }

  // s names every queue of the table once.
  ghost predicate Lists<Q>(s: seq<Q>, table: map<u64, Q>)
  {
    Distinct(s) && (forall q <- s :: q in table.Values) && (forall d <- table :: table[d] in s)
  }

  ghost predicate Injective<Q>(table: map<u64, Q>)
  {
    forall d, e :: d in table && e in table && table[d] == table[e] ==> d == e
  }

  function Take<Q>(refs: map<Q, nat>, q: Q): map<Q, nat>
    requires q in refs
  {
    refs[q := refs[q] + 1]
  }

  // ofp_bridgeq_free without force: the last reference frees the queue.
  function Drop<Q>(refs: map<Q, nat>, q: Q): map<Q, nat>
  {
    if q in refs && refs[q] > 1 then refs[q := refs[q] - 1] else refs - {q}
  }

  function TakeAll<Q>(refs: map<Q, nat>, qs: seq<Q>): map<Q, nat>
    requires forall q <- qs :: q in refs
  {
    if qs == [] then refs else TakeAll(Take(refs, qs[0]), qs[1..])
  }

  function DropAll<Q>(refs: map<Q, nat>, qs: seq<Q>): map<Q, nat>
    decreases |qs|
  {
    if qs == [] then refs else DropAll(Drop(refs, qs[0]), qs[1..])
  }

  // The cache after a registration that found no room: MAX_BRIDGES queues of the table as it
  // was with the new queue in it.
  ghost predicate Overflowed<Q>(cache: seq<Q>, table: map<u64, Q>)
  {
    |cache| == MAX_BRIDGES && Distinct(cache) && forall q <- cache :: q in table.Values
  }

  ghost predicate Registers<Q>(s: State<Q>, dpid: u64, q: Q, ret: Code, t: State<Q>)
  {
    if dpid in s.table then ret == ALREADY_EXISTS && t == s
    else if |s.table| < MAX_BRIDGES then
      && ret == OK && t.table == s.table[dpid := q] && t.refs == s.refs[q := 1]
      && Lists(t.cache, t.table)
    else
      && ret == ITERATION_HALTED && t.table == s.table && t.refs == s.refs
      && Overflowed(t.cache, s.table[dpid := q])
  }

  ghost predicate Unregisters<Q>(s: State<Q>, dpid: u64, ret: Code, t: State<Q>)
  {
    if dpid in s.table then
      && ret == OK && t.table == s.table - {dpid} && t.refs == Drop(s.refs, s.table[dpid])
      && Lists(t.cache, t.table)
    else
      ret == NOT_FOUND && t == s.(cache := [])
  }

  ghost predicate Next<Q>(s: State<Q>, e: Event<Q>, t: State<Q>)
  {
    match e
    case Register(dpid, q, ret) => Registers(s, dpid, q, ret, t)
    case Unregister(dpid, ret) => Unregisters(s, dpid, ret, t)
    case Lookup(dpid, got) =>
      && got == (if dpid in s.table then [s.table[dpid]] else [])
      && (forall q <- got :: q in s.refs) && t == s.(refs := TakeAll(s.refs, got))
    case Snapshot(got) =>
      got == s.cache && (forall q <- got :: q in s.refs) && t == s.(refs := TakeAll(s.refs, got))
    case Release(qs) => t == s.(refs := DropAll(s.refs, qs))
  }

  // What one operation does to the references held.
  function HeldAfter<Q>(held: multiset<Q>, e: Event<Q>): multiset<Q>
  {
    match e
    case Lookup(_, got) => held + multiset(got)
    case Snapshot(got) => held + multiset(got)
    case Release(qs) => held - multiset(qs)
    case _ => held
  }

  // The references handed out and not yet given back.
  function Held<Q>(trace: seq<Event<Q>>): multiset<Q>
  {
    if trace == [] then multiset{}
    else HeldAfter(Held(trace[..|trace| - 1]), trace[|trace| - 1])
  }

  ghost predicate Made<Q>(trace: seq<Event<Q>>, q: Q)
  {
    exists e <- trace :: e.Register? && e.queue == q
  }

  // Callers register a queue they have just allocated and give back only what they hold.
  ghost predicate Allowed<Q>(trace: seq<Event<Q>>, e: Event<Q>)
  {
    match e
    case Register(_, q, _) => !Made(trace, q)
    case Release(qs) => multiset(qs) <= Held(trace)
    case _ => true
  }

  function Start<Q>(): State<Q>
  {
    State(map[], map[], [])
  }

  ghost predicate Run<Q>(states: seq<State<Q>>, events: seq<Event<Q>>)
  {
    && |states| == |events| + 1 && states[0] == Start()
    && forall i :: 0 <= i < |events| ==> Step(states, events, i)
  }

  ghost predicate Step<Q>(states: seq<State<Q>>, events: seq<Event<Q>>, i: nat)
    requires i < |events| && |states| == |events| + 1
  {
    Allowed(events[..i], events[i]) && Next(states[i], events[i], states[i + 1])
  }

  lemma RunStep<Q>(states: seq<State<Q>>, events: seq<Event<Q>>, i: nat)
    requires Run(states, events) && i < |events|
    ensures |states| == |events| + 1
    ensures Allowed(events[..i], events[i]) && Next(states[i], events[i], states[i + 1])
  {
    hide Allowed;
    hide Next;
    assert Step(states, events, i);
  }

  // Every queue in memory is referenced, and its counter is the number of its references:
  // one from the table, if it is there, and one for every holder.
  ghost predicate Counted<Q>(table: map<u64, Q>, refs: map<Q, nat>, held: multiset<Q>)
  {
    && (forall q <- refs :: refs[q] == (if q in table.Values then 1 else 0) + held[q] && refs[q] > 0)
    && (forall q <- held :: q in refs)
    && (forall d <- table :: table[d] in refs)
  }

  ghost predicate Sound<Q>(s: State<Q>, held: multiset<Q>)
  {
    Injective(s.table) && |s.table| <= MAX_BRIDGES && Counted(s.table, s.refs, held)
  }

  lemma TakeCounts<Q>(table: map<u64, Q>, refs: map<Q, nat>, held: multiset<Q>, q: Q)
    requires Counted(table, refs, held) && q in refs
    ensures Counted(table, Take(refs, q), held + multiset{q})
  {
  }

  lemma DropCounts<Q>(table: map<u64, Q>, refs: map<Q, nat>, held: multiset<Q>, q: Q)
    requires Counted(table, refs, held) && q in held
    ensures Counted(table, Drop(refs, q), held - multiset{q})
  {
  }

  lemma {:induction false} TakeAllCounts<Q>(table: map<u64, Q>, refs: map<Q, nat>, held: multiset<Q>, qs: seq<Q>)
    requires Counted(table, refs, held) && forall q <- qs :: q in refs
    ensures Counted(table, TakeAll(refs, qs), held + multiset(qs))
    decreases |qs|
  {
    if qs != [] {
      TakeCounts(table, refs, held, qs[0]);
      TakeAllCounts(table, Take(refs, qs[0]), held + multiset{qs[0]}, qs[1..]);
      assert qs == [qs[0]] + qs[1..];
      assert held + multiset(qs) == held + multiset{qs[0]} + multiset(qs[1..]);
    } else {
      assert held + multiset(qs) == held;
    }
  }

  lemma {:induction false} DropAllCounts<Q>(table: map<u64, Q>, refs: map<Q, nat>, held: multiset<Q>, qs: seq<Q>)
    requires Counted(table, refs, held) && multiset(qs) <= held
    ensures Counted(table, DropAll(refs, qs), held - multiset(qs))
    decreases |qs|
  {
    if qs != [] {
      assert qs == [qs[0]] + qs[1..];
      assert multiset(qs) == multiset{qs[0]} + multiset(qs[1..]);
      DropCounts(table, refs, held, qs[0]);
      DropAllCounts(table, Drop(refs, qs[0]), held - multiset{qs[0]}, qs[1..]);
      assert held - multiset(qs) == held - multiset{qs[0]} - multiset(qs[1..]);
    } else {
      assert held - multiset(qs) == held;
    }
  }

  lemma AddCounts<Q>(table: map<u64, Q>, refs: map<Q, nat>, held: multiset<Q>, dpid: u64, q: Q)
    requires Counted(table, refs, held) && Injective(table) && dpid !in table && q !in refs
    ensures Counted(table[dpid := q], refs[q := 1], held) && Injective(table[dpid := q])
  {
    var wider := table[dpid := q];
    assert wider[dpid] == q;
    assert forall d :: d in table ==> wider[d] == table[d];
    assert forall x <- refs :: x in wider.Values <==> x in table.Values;
  }

  lemma RemoveCounts<Q>(table: map<u64, Q>, refs: map<Q, nat>, held: multiset<Q>, dpid: u64)
    requires Counted(table, refs, held) && Injective(table) && dpid in table
    ensures Counted(table - {dpid}, Drop(refs, table[dpid]), held)
    ensures Injective(table - {dpid}) && |table - {dpid}| < |table|
  {
    var q, fewer := table[dpid], table - {dpid};
    assert fewer.Keys == table.Keys - {dpid};
    assert forall d :: d in fewer ==> fewer[d] == table[d] && fewer[d] != q;
    assert forall x <- refs :: x != q ==> (x in table.Values <==> x in fewer.Values);
    assert q !in fewer.Values;
  }

  lemma NextIsSound<Q>(s: State<Q>, held: multiset<Q>, e: Event<Q>, t: State<Q>)
    requires Sound(s, held) && Next(s, e, t)
    requires e.Register? ==> e.queue !in s.refs
    requires e.Release? ==> multiset(e.queues) <= held
    ensures Sound(t, HeldAfter(held, e))
  {
    match e
    case Register(dpid, q, _) =>
      if dpid !in s.table {
        AddCounts(s.table, s.refs, held, dpid, q);
      }
    case Unregister(dpid, _) =>
      if dpid in s.table {
        RemoveCounts(s.table, s.refs, held, dpid);
      }
    case Lookup(_, got) => TakeAllCounts(s.table, s.refs, held, got);
    case Snapshot(got) => TakeAllCounts(s.table, s.refs, held, got);
    case Release(qs) => DropAllCounts(s.table, s.refs, held, qs);
  }

  // A registration that found its dpid free.
  lemma RegisterNext<Q>(s: State<Q>, held: multiset<Q>, dpid: u64, q: Q, ret: Code, t: State<Q>)
    requires Sound(s, held) && dpid !in s.table && q !in s.refs
    requires ret == if |s.table[dpid := q]| <= MAX_BRIDGES then OK else ITERATION_HALTED
    requires ret == OK ==>
      t.table == s.table[dpid := q] && t.refs == s.refs[q := 1] && Lists(t.cache, t.table)
    requires ret != OK ==>
      t.table == s.table && t.refs == s.refs && Overflowed(t.cache, s.table[dpid := q])
    ensures Next(s, Register(dpid, q, ret), t) && Sound(t, held)
  {
    hide Lists;
    hide Overflowed;
    NextIsSound(s, held, Register(dpid, q, ret), t);
  }

  // An unregistration that found its dpid.
  lemma UnregisterNext<Q>(s: State<Q>, held: multiset<Q>, dpid: u64, ret: Code, t: State<Q>)
    requires Sound(s, held) && dpid in s.table
    requires ret == if |t.table| <= MAX_BRIDGES then OK else ITERATION_HALTED
    requires t.table == s.table - {dpid} && t.refs == Drop(s.refs, s.table[dpid])
    requires ret == OK ==> Lists(t.cache, t.table)
    ensures Next(s, Unregister(dpid, ret), t) && Sound(t, held)
  {
    hide Lists;
    RemoveCounts(s.table, s.refs, held, dpid);
    NextIsSound(s, held, Unregister(dpid, ret), t);
  }

  // The counters are determined by the table and the handles.
  lemma SoundUnique<Q>(s: State<Q>, t: State<Q>, held: multiset<Q>)
    requires Sound(s, held) && Sound(t, held) && s.table == t.table && s.cache == t.cache
    ensures s == t
  {
    forall q <- s.refs
      ensures q in t.refs && s.refs[q] == t.refs[q]
    {
      if q in s.table.Values {
        var d :| d in s.table && s.table[d] == q;
        assert t.table[d] in t.refs;
      }
    }
    forall q <- t.refs
      ensures q in s.refs
    {
      if q in t.table.Values {
        var d :| d in t.table && t.table[d] == q;
        assert s.table[d] in s.refs;
      }
    }
    assert s.refs == t.refs;
  }

  lemma RoundTrip<Q>(s: State<Q>, qs: seq<Q>, t: State<Q>, u: State<Q>)
    requires Next(s, Snapshot(qs), t) && Next(t, Release(qs), u)
    ensures u.table == s.table && u.cache == s.cache
  {
  }

  lemma UnknownNext<Q>(s: State<Q>, held: multiset<Q>, dpid: u64, t: State<Q>)
    requires Sound(s, held) && dpid !in s.table && t == s.(cache := [])
    ensures Next(s, Unregister(dpid, NOT_FOUND), t) && Sound(t, held)
  {
  }

  lemma SoundAdd<Q>(s: State<Q>, held: multiset<Q>, dpid: u64, q: Q)
    requires Sound(s, held) && dpid !in s.table && q !in s.refs
    ensures Injective(s.table[dpid := q])
  {
    AddCounts(s.table, s.refs, held, dpid, q);
  }

  lemma SoundRemove<Q>(s: State<Q>, held: multiset<Q>, dpid: u64)
    requires Sound(s, held)
    ensures Injective(s.table - {dpid})
    ensures dpid in s.table ==> s.table[dpid] in s.refs
  {
  }

  // One turn of the loops that take and give back references.
  lemma TakeTurn<Q>(refs: map<Q, nat>, qs: seq<Q>, i: nat)
    requires i < |qs| && forall q <- qs[i..] :: q in refs
    ensures qs[i] in refs && forall q <- qs[i + 1..] :: q in Take(refs, qs[i])
    ensures TakeAll(refs, qs[i..]) == TakeAll(Take(refs, qs[i]), qs[i + 1..])
  {
    assert qs[i..][0] == qs[i] && qs[i..][1..] == qs[i + 1..];
    assert qs[i] in qs[i..];
    assert forall q <- qs[i + 1..] :: q in qs[i..];
  }

  lemma DropTurn<Q>(refs: map<Q, nat>, held: multiset<Q>, qs: seq<Q>, i: nat)
    requires i < |qs| && multiset(qs) <= held
    ensures qs[i] in held - multiset(qs[..i])
    ensures held - multiset(qs[..i]) - multiset{qs[i]} == held - multiset(qs[..i + 1])
    ensures DropAll(refs, qs[i..]) == DropAll(Drop(refs, qs[i]), qs[i + 1..])
  {
    hide Drop;
    assert qs[i..][0] == qs[i] && qs[i..][1..] == qs[i + 1..];
    assert qs[..i + 1] == qs[..i] + [qs[i]];
    assert qs == qs[..i + 1] + qs[i + 1..];
    assert multiset(qs) == multiset(qs[..i]) + multiset{qs[i]} + multiset(qs[i + 1..]);
  }

  lemma DropNone<Q>(refs: map<Q, nat>)
    ensures DropAll(refs, []) == refs
  {
  }

  lemma TakeAllKeys<Q>(refs: map<Q, nat>, qs: seq<Q>)
    requires forall q <- qs :: q in refs
    ensures TakeAll(refs, qs).Keys == refs.Keys
    decreases |qs|
  {
  }

  lemma DropAllKeys<Q>(refs: map<Q, nat>, qs: seq<Q>)
    ensures DropAll(refs, qs).Keys <= refs.Keys
    decreases |qs|
  {
  }

  // Only a registration puts a queue into memory.
  lemma NextKeys<Q>(s: State<Q>, e: Event<Q>, t: State<Q>)
    requires Next(s, e, t)
    ensures t.refs.Keys <= s.refs.Keys + (if e.Register? then {e.queue} else {})
  {
    match e
    case Register(_, _, _) =>
    case Unregister(_, _) =>
    case Lookup(_, got) => TakeAllKeys(s.refs, got);
    case Snapshot(got) => TakeAllKeys(s.refs, got);
    case Release(qs) => DropAllKeys(s.refs, qs);
  }

  lemma MadeBefore<Q>(trace: seq<Event<Q>>, e: Event<Q>, q: Q)
    ensures Made(trace + [e], q) <==> Made(trace, q) || (e.Register? && e.queue == q)
  {
    var longer := trace + [e];
    if Made(trace, q) {
      var f :| f in trace && f.Register? && f.queue == q;
      assert f in longer;
    }
    assert longer[|trace|] == e;
  }

  lemma HeldAppend<Q>(trace: seq<Event<Q>>, e: Event<Q>)
    ensures Held(trace + [e]) == HeldAfter(Held(trace), e)
  {
    hide HeldAfter;
    assert (trace + [e])[..|trace|] == trace;
  }

  ghost predicate Reached<Q>(trace: seq<Event<Q>>, s: State<Q>)
  {
    Sound(s, Held(trace)) && forall q <- s.refs :: Made(trace, q)
  }

  lemma ReachedStep<Q>(trace: seq<Event<Q>>, s: State<Q>, e: Event<Q>, t: State<Q>)
    requires Reached(trace, s) && Allowed(trace, e) && Next(s, e, t)
    ensures Reached(trace + [e], t)
  {
    NextIsSound(s, Held(trace), e, t);
    NextKeys(s, e, t);
    HeldAppend(trace, e);
    hide Next;
    hide Sound;
    hide Made;
    hide Held;
    hide HeldAfter;
    forall q <- t.refs
      ensures Made(trace + [e], q)
    {
      MadeBefore(trace, e, q);
    }
  }

  lemma StartReached<Q>(states: seq<State<Q>>, events: seq<Event<Q>>)
    requires Run(states, events)
    ensures Reached(events[..0], states[0])
  {
  }

  // In every reachable state the counters are exact and every queue in memory was registered. A
  // snapshot that would follow a pointer to a freed queue is no step, so a run ends where the
  // source's behaviour is no longer defined; CacheIsLive and CacheStaysLiveIff say when that is.
  lemma {:induction false} RunIsSound<Q>(states: seq<State<Q>>, events: seq<Event<Q>>, i: nat)
    requires Run(states, events) && i <= |events|
    ensures Reached(events[..i], states[i])
  {
    hide *;
    if i == 0 {
      StartReached(states, events);
    } else {
      RunStep(states, events, i - 1);
      RunIsSound(states, events, i - 1);
      ReachedStep(events[..i - 1], states[i - 1], events[i - 1], states[i]);
      assert events[..i] == events[..i - 1] + [events[i - 1]];
    }
  }

  // A queue is in memory exactly as long as the table or a holder refers to it: it is never
  // freed while somebody holds it, and never left behind. This is for runs whose snapshots find
  // only queues in memory, as for RunIsSound.
  lemma InMemoryIffReferenced<Q>(states: seq<State<Q>>, events: seq<Event<Q>>, i: nat, q: Q)
    requires Run(states, events) && i <= |events|
    ensures q in states[i].refs <==> q in states[i].table.Values || q in Held(events[..i])
    ensures q in states[i].refs ==>
      states[i].refs[q] == Held(events[..i])[q] + if q in states[i].table.Values then 1 else 0
  {
    RunIsSound(states, events, i);
  }

  // The queue registered for d, if there is one, told from the operations and their results.
  function Registered<Q>(trace: seq<Event<Q>>, d: u64): seq<Q>
  {
    if trace == [] then []
    else
      var n := |trace| - 1;
      match trace[n]
      case Register(e, q, ret) => if e == d && ret == OK then [q] else Registered(trace[..n], d)
      case Unregister(e, ret) => if e == d && ret == OK then [] else Registered(trace[..n], d)
      case _ => Registered(trace[..n], d)
  }

  lemma {:induction false} TableIsHistory<Q>(states: seq<State<Q>>, events: seq<Event<Q>>, i: nat, d: u64)
    requires Run(states, events) && i <= |events|
    ensures
      var t := states[i].table;
      Registered(events[..i], d) == if d in t then [t[d]] else []
  {
    if i > 0 {
      TableIsHistory(states, events, i - 1, d);
      RunStep(states, events, i - 1);
      assert events[..i][..i - 1] == events[..i - 1];
    }
  }

  // What every operation of every run returns: a registration is refused exactly when there is
  // one for the dpid or 512 in all, an unregistration exactly when there is none, a lookup hands
  // out exactly the queue registered last, and a snapshot what the last change left in the cache.
  lemma ResultsFromHistory<Q>(states: seq<State<Q>>, events: seq<Event<Q>>, i: nat)
    requires Run(states, events) && i < |events|
    ensures
      match events[i]
      case Register(d, _, ret) =>
        ret == if Registered(events[..i], d) != [] then ALREADY_EXISTS
               else if |states[i].table| >= 512 then ITERATION_HALTED
               else OK
      case Unregister(d, ret) => ret == if Registered(events[..i], d) != [] then OK else NOT_FOUND
      case Lookup(d, got) => got == Registered(events[..i], d)
      case Snapshot(got) => CacheIs(events[..i], states[i].(cache := got))
      case Release(_) => true
  {
    RunStep(states, events, i);
    match events[i]
    case Register(d, _, _) => TableIsHistory(states, events, i, d);
    case Unregister(d, _) => TableIsHistory(states, events, i, d);
    case Lookup(d, _) => TableIsHistory(states, events, i, d);
    case Snapshot(_) => RunCache(states, events, i);
    case Release(_) =>
  }

  // Once freed, always freed: a queue is destroyed at most once.
  lemma {:induction false} FreedOnce<Q>(states: seq<State<Q>>, events: seq<Event<Q>>, i: nat, j: nat, q: Q)
    requires Run(states, events) && i <= j <= |events|
    requires Made(events[..i], q) && q !in states[i].refs
    ensures q !in states[j].refs && Made(events[..j], q)
    decreases j
  {
    if i < j {
      FreedOnce(states, events, i, j - 1, q);
      assert Step(states, events, j - 1);
      NextKeys(states[j - 1], events[j - 1], states[j]);
      assert events[..j] == events[..j - 1] + [events[j - 1]];
      MadeBefore(events[..j - 1], events[j - 1], q);
    }
  }

  // What the cache holds, by the last operation that rebuilt or cleared it.
  ghost predicate CacheIs<Q>(trace: seq<Event<Q>>, s: State<Q>)
  {
    if trace == [] then s.cache == []
    else
      match trace[|trace| - 1]
      case Register(dpid, q, ret) =>
        if ret == OK then Lists(s.cache, s.table)
        else if ret == ITERATION_HALTED then Overflowed(s.cache, s.table[dpid := q])
        else CacheIs(trace[..|trace| - 1], s)
      case Unregister(_, ret) => if ret == OK then Lists(s.cache, s.table) else s.cache == []
      case _ => CacheIs(trace[..|trace| - 1], s)
  }

  lemma {:induction false} CacheFrame<Q>(trace: seq<Event<Q>>, s: State<Q>, t: State<Q>)
    requires CacheIs(trace, s) && s.table == t.table && s.cache == t.cache
    ensures CacheIs(trace, t)
  {
    if trace != [] {
      var e := trace[|trace| - 1];
      if (e.Register? && e.ret != OK && e.ret != ITERATION_HALTED) || !(e.Register? || e.Unregister?) {
        CacheFrame(trace[..|trace| - 1], s, t);
      }
    }
  }

  lemma {:induction false} RunCache<Q>(states: seq<State<Q>>, events: seq<Event<Q>>, i: nat)
    requires Run(states, events) && i <= |events|
    ensures CacheIs(events[..i], states[i])
  {
    if i > 0 {
      RunCache(states, events, i - 1);
      assert Step(states, events, i - 1);
      assert events[..i][..i - 1] == events[..i - 1];
      if states[i].table == states[i - 1].table && states[i].cache == states[i - 1].cache {
        CacheFrame(events[..i - 1], states[i - 1], states[i]);
      }
    }
  }

  ghost predicate NeverFull<Q>(events: seq<Event<Q>>)
  {
    forall e <- events :: e.Register? ==> e.ret != ITERATION_HALTED
  }

  lemma {:induction false} CacheInTable<Q>(trace: seq<Event<Q>>, s: State<Q>)
    requires CacheIs(trace, s) && NeverFull(trace)
    ensures forall q <- s.cache :: q in s.table.Values
  {
    if trace != [] {
      var e, before := trace[|trace| - 1], trace[..|trace| - 1];
      assert e in trace;
      assert NeverFull(before);
      if (e.Register? && e.ret != OK) || !(e.Register? || e.Unregister?) {
        CacheInTable(before, s);
      }
    }
  }

  // While no registration ran out of room, the main loop is handed only registered queues,
  // each of them in memory.
  lemma CacheIsLive<Q>(states: seq<State<Q>>, events: seq<Event<Q>>, i: nat)
    requires Run(states, events) && i <= |events| && NeverFull(events[..i])
    ensures forall q <- states[i].cache :: q in states[i].table.Values && q in states[i].refs
  {
    RunCache(states, events, i);
    RunIsSound(states, events, i);
    CacheInTable(events[..i], states[i]);
  }

  // A registration leaves a freed queue in the cache exactly when it was refused for lack of
  // room and the new queue was among the first MAX_BRIDGES of the walk.
  lemma StaleIff<Q>(s: State<Q>, held: multiset<Q>, e: Event<Q>, t: State<Q>)
    requires Sound(s, held) && Next(s, e, t) && e.Register? && e.queue !in s.refs
    requires forall q <- s.cache :: q in s.refs
    ensures (forall q <- t.cache :: q in t.refs)
      <==> e.dpid in s.table || |s.table| < MAX_BRIDGES || e.queue !in t.cache
  {
    if e.dpid !in s.table && |s.table| < MAX_BRIDGES {
      NextIsSound(s, held, e, t);
    } else if e.dpid !in s.table {
      var wider := s.table[e.dpid := e.queue];
      forall q | q in t.cache && q != e.queue
        ensures q in t.refs
      {
        assert q in wider.Values;
        var d :| d in wider && wider[d] == q;
        assert d != e.dpid;
      }
    }
  }

  lemma {:induction false} AnyList<Q>(table: map<u64, Q>) returns (l: seq<Q>)
    requires Injective(table)
    ensures Lists(l, table) && |l| == |table|
    decreases |table|
  {
    if table == map[] {
      l := [];
    } else {
      var d :| d in table;
      var fewer := table - {d};
      assert fewer.Keys == table.Keys - {d};
      assert table[d] !in fewer.Values;
      var tail := AnyList(fewer);
      l := [table[d]] + tail;
      assert forall e <- table :: e == d || (e in fewer && fewer[e] == table[e]);
    }
  }

  // With the table full, such a registration can happen.
  lemma StaleCanHappen<Q>(s: State<Q>, held: multiset<Q>, dpid: u64, q: Q) returns (t: State<Q>)
    requires Sound(s, held) && |s.table| == MAX_BRIDGES && dpid !in s.table && q !in s.refs
    ensures Next(s, Register(dpid, q, ITERATION_HALTED), t)
    ensures q in t.cache && q !in t.refs
  {
    var l := AnyList(s.table);
    assert forall x <- l :: x in s.refs;
    assert forall x <- l[..MAX_BRIDGES - 1] :: x in l;
    t := s.(cache := [q] + l[..MAX_BRIDGES - 1]);
    var wider := s.table[dpid := q];
    assert wider[dpid] == q;
    forall x <- t.cache
      ensures x in wider.Values
    {
      if x != q {
        assert x in l;
        assert x in s.table.Values;
        var d :| d in s.table && s.table[d] == x;
        assert wider[d] == x;
      }
    }
  }

  ghost predicate CacheLive<Q>(s: State<Q>)
  {
    forall q <- s.cache :: q in s.refs
  }

  // Whatever order the table is walked in, a registration leaves only live queues in the cache:
  // this holds exactly when the dpid is taken or the table has room.
  lemma CacheStaysLiveIff<Q(!new)>(s: State<Q>, held: multiset<Q>, dpid: u64, q: Q)
    requires Sound(s, held) && CacheLive(s) && q !in s.refs
    ensures (forall ret, t :: Next(s, Register(dpid, q, ret), t) ==> CacheLive(t))
      <==> dpid in s.table || |s.table| < 512
  {
    if dpid in s.table || |s.table| < MAX_BRIDGES {
      forall ret, t | Next(s, Register(dpid, q, ret), t)
        ensures CacheLive(t)
      {
        StaleIff(s, held, Register(dpid, q, ret), t);
      }
    } else {
      var t := StaleCanHappen(s, held, dpid, q);
      assert !CacheLive(t);
    }
  }

  // A run that gets there: bridge k is registered with queue k, for k below 512, and then one more.
  function FilledTable(k: nat): (t: map<u64, nat>)
    requires k <= MAX_BRIDGES
    ensures |t| == k && forall d: u64 :: d in t <==> d < k
    ensures forall d: u64 :: d in t ==> t[d] == d
  {
    if k == 0 then map[] else FilledTable(k - 1)[k - 1 := k - 1]
  }

  function FilledRefs(k: nat): (r: map<nat, nat>)
    ensures forall q: nat :: q in r <==> q < k
  {
    if k == 0 then map[] else FilledRefs(k - 1)[k - 1 := 1]
  }

  function Filled(k: nat): State<nat>
    requires k <= MAX_BRIDGES
  {
    State(FilledTable(k), FilledRefs(k), seq(k, i => i))
  }

  function Stale(): State<nat>
  {
    Filled(MAX_BRIDGES).(cache := seq(MAX_BRIDGES, i => if i == 0 then MAX_BRIDGES else i))
  }

  function FillState(k: nat): State<nat>
  {
    if k <= MAX_BRIDGES then Filled(k) else Stale()
  }

  function FillEvent(k: nat): Event<nat>
    requires k <= MAX_BRIDGES
  {
    Register(k, k, if k < MAX_BRIDGES then OK else ITERATION_HALTED)
  }

  function FillStates(): seq<State<nat>>
  {
    seq(MAX_BRIDGES + 2, k requires 0 <= k => FillState(k))
  }

  function FillEvents(): seq<Event<nat>>
  {
    seq(MAX_BRIDGES + 1, k requires 0 <= k <= MAX_BRIDGES => FillEvent(k))
  }

  lemma FilledLists(k: nat)
    requires k <= MAX_BRIDGES
    ensures Lists(Filled(k).cache, Filled(k).table)
  {
    var s := Filled(k);
    forall e <- s.table
      ensures s.table[e] in s.cache
    {
      assert s.cache[e] == e;
    }
    forall q <- s.cache
      ensures q in s.table.Values
    {
      var e: u64 := q;
      assert s.table[e] == q;
    }
  }

  lemma FillNext(k: nat)
    requires k < MAX_BRIDGES
    ensures Next(Filled(k), Register(k, k, OK), Filled(k + 1))
  {
    FilledLists(k + 1);
    hide Lists;
  }

  lemma OverfillNext()
    ensures Next(Filled(MAX_BRIDGES), Register(MAX_BRIDGES, MAX_BRIDGES, ITERATION_HALTED), Stale())
  {
    var s, t := Filled(MAX_BRIDGES), Stale();
    var wider := s.table[MAX_BRIDGES as u64 := MAX_BRIDGES];
    forall q <- t.cache
      ensures q in wider.Values
    {
      var e: u64 := q;
      assert wider[e] == q;
    }
  }

  lemma FillAllowed(k: nat)
    requires k <= MAX_BRIDGES
    ensures !Made(FillEvents()[..k], k)
  {
    forall e <- FillEvents()[..k]
      ensures e.Register? && e.queue < k
    {
      var i :| 0 <= i < k && FillEvents()[i] == e;
    }
  }

  lemma FillStepNext(k: nat)
    requires k <= MAX_BRIDGES
    ensures Next(FillState(k), FillEvent(k), FillState(k + 1))
  {
    hide Next;
    hide Filled;
    hide Stale;
    if k < MAX_BRIDGES {
      FillNext(k);
    } else {
      OverfillNext();
    }
  }

  lemma FillStep(k: nat)
    requires k <= MAX_BRIDGES
    ensures Step(FillStates(), FillEvents(), k)
  {
    FillAllowed(k);
    FillStepNext(k);
    hide Made;
    hide Next;
    hide FillState;
  }

  lemma FillShape()
    ensures |FillStates()| == MAX_BRIDGES + 2 && |FillEvents()| == MAX_BRIDGES + 1
    ensures FillStates()[0] == Start() && FillStates()[MAX_BRIDGES + 1] == Stale()
  {
    assert Filled(0) == Start();
  }

  lemma StaleEnd()
    ensures MAX_BRIDGES in Stale().cache && MAX_BRIDGES !in Stale().refs
    ensures forall got, t :: !Next(Stale(), Snapshot(got), t)
  {
    assert Stale().cache[0] == MAX_BRIDGES;
  }

  // From the start: 512 registrations, and a 513th that is refused, frees its queue and leaves it
  // in the cache. No snapshot is defined any more.
  lemma OverfilledRun()
    ensures Run(FillStates(), FillEvents())
    ensures
      var last := FillStates()[MAX_BRIDGES + 1];
      && MAX_BRIDGES in last.cache && MAX_BRIDGES !in last.refs
      && forall got, t :: !Next(last, Snapshot(got), t)
  {
    FillShape();
    StaleEnd();
    hide Step;
    hide Next;
    hide FillStates;
    hide FillEvents;
    hide Stale;
    forall i | 0 <= i < |FillEvents()|
      ensures Step(FillStates(), FillEvents(), i)
    {
      FillStep(i);
    }
  }

  // The callers. Each thread of the agent gives back what it took last: the main loop its
  // snapshot at the end of a round, and in between, for every event it queues, the queue it
  // looked up for it.
  datatype Tagged<Q> = Tagged(thread: nat, event: Event<Q>)

  function Untag<Q>(trace: seq<Tagged<Q>>): seq<Event<Q>>
  {
    seq(|trace|, i requires 0 <= i < |trace| => trace[i].event)
  }

  // What an operation does to what its own thread has taken and not given back.
  function OwnAfter<Q>(own: seq<seq<Q>>, e: Event<Q>): seq<seq<Q>>
  {
    match e
    case Lookup(_, got) => if got == [] then own else own + [got]
    case Snapshot(got) => own + [got]
    case Release(_) => if own == [] then [] else own[..|own| - 1]
    case _ => own
  }

  function Own<Q>(trace: seq<Tagged<Q>>, thread: nat): seq<seq<Q>>
  {
    if trace == [] then []
    else
      var n := |trace| - 1;
      var before := Own(trace[..n], thread);
      if trace[n].thread == thread then OwnAfter(before, trace[n].event) else before
  }

  // A release gives back the last thing its thread took.
  ghost predicate GivesBack<Q>(own: seq<seq<Q>>, e: Event<Q>)
  {
    e.Release? ==> own != [] && e.queues == own[|own| - 1]
  }

  ghost predicate Disciplined<Q>(trace: seq<Tagged<Q>>)
  {
    forall i :: 0 <= i < |trace| ==> GivesBack(Own(trace[..i], trace[i].thread), trace[i].event)
  }

  // Everything the first n threads hold.
  function Total<Q>(trace: seq<Tagged<Q>>, n: nat): multiset<Q>
  {
    if n == 0 then multiset{} else Total(trace, n - 1) + OwnHeld(trace, n - 1)
  }

  function OwnHeld<Q>(trace: seq<Tagged<Q>>, thread: nat): multiset<Q>
  {
    multiset(Flatten(Own(trace, thread)))
  }

  lemma OwnStep<Q>(own: seq<seq<Q>>, e: Event<Q>)
    requires GivesBack(own, e)
    ensures multiset(Flatten(OwnAfter(own, e))) == HeldAfter(multiset(Flatten(own)), e)
    ensures e.Release? ==> multiset(e.queues) <= multiset(Flatten(own))
  {
    match e
    case Lookup(_, got) => FlattenAppend(own, got);
    case Snapshot(got) => FlattenAppend(own, got);
    case Release(qs) =>
      assert own == own[..|own| - 1] + [qs];
      FlattenAppend(own[..|own| - 1], qs);
    case _ =>
  }

  lemma OwnHeldStep<Q>(trace: seq<Tagged<Q>>, x: Tagged<Q>, th: nat)
    requires GivesBack(Own(trace, x.thread), x.event)
    ensures OwnHeld(trace + [x], th) ==
      if x.thread == th then HeldAfter(OwnHeld(trace, th), x.event) else OwnHeld(trace, th)
    ensures x.thread == th && x.event.Release? ==> multiset(x.event.queues) <= OwnHeld(trace, th)
  {
    assert (trace + [x])[..|trace|] == trace;
    OwnStep(Own(trace, x.thread), x.event);
    hide OwnAfter;
    hide Flatten;
  }

  lemma {:induction false} TotalElsewhere<Q>(trace: seq<Tagged<Q>>, x: Tagged<Q>, n: nat)
    requires GivesBack(Own(trace, x.thread), x.event) && n <= x.thread
    ensures Total(trace + [x], n) == Total(trace, n)
  {
    hide GivesBack;
    hide OwnHeld;
    if n > 0 {
      TotalElsewhere(trace, x, n - 1);
      OwnHeldStep(trace, x, n - 1);
    }
  }

  lemma {:induction false} OwnInTotal<Q>(trace: seq<Tagged<Q>>, th: nat, n: nat)
    requires th < n
    ensures OwnHeld(trace, th) <= Total(trace, n)
  {
    hide OwnHeld;
    if th < n - 1 {
      OwnInTotal(trace, th, n - 1);
    }
  }

  lemma {:induction false} TotalStep<Q>(trace: seq<Tagged<Q>>, x: Tagged<Q>, n: nat)
    requires GivesBack(Own(trace, x.thread), x.event) && x.thread < n
    ensures Total(trace + [x], n) == HeldAfter(Total(trace, n), x.event)
  {
    hide GivesBack;
    hide OwnHeld;
    hide HeldAfter;
    OwnHeldStep(trace, x, n - 1);
    if x.thread == n - 1 {
      TotalElsewhere(trace, x, n - 1);
      AddHeld(Total(trace, n - 1), OwnHeld(trace, n - 1), x.event);
    } else {
      TotalStep(trace, x, n - 1);
      OwnHeldStep(trace, x, x.thread);
      OwnInTotal(trace, x.thread, n - 1);
      HeldAdd(Total(trace, n - 1), OwnHeld(trace, n - 1), x.event);
    }
  }

  lemma AddHeld<Q>(others: multiset<Q>, own: multiset<Q>, e: Event<Q>)
    requires e.Release? ==> multiset(e.queues) <= own
    ensures others + HeldAfter(own, e) == HeldAfter(others + own, e)
  {
  }

  lemma HeldAdd<Q>(own: multiset<Q>, others: multiset<Q>, e: Event<Q>)
    requires e.Release? ==> multiset(e.queues) <= own
    ensures HeldAfter(own, e) + others == HeldAfter(own + others, e)
  {
  }

  lemma DisciplinedBefore<Q>(trace: seq<Tagged<Q>>, m: nat)
    requires Disciplined(trace) && m <= |trace|
    ensures Disciplined(trace[..m])
    ensures m < |trace| ==> GivesBack(Own(trace[..m], trace[m].thread), trace[m].event)
  {
    hide GivesBack;
    hide Own;
    assert forall i :: 0 <= i < m ==> trace[..m][..i] == trace[..i] && trace[..m][i] == trace[i];
  }

  lemma HeldSnoc<Q>(trace: seq<Tagged<Q>>, m: nat)
    requires m < |trace|
    ensures Held(Untag(trace[..m + 1])) == HeldAfter(Held(Untag(trace[..m])), trace[m].event)
    ensures trace[..m + 1] == trace[..m] + [trace[m]]
  {
    hide *;
    var before, x := trace[..m], trace[m];
    assert trace[..m + 1] == before + [x];
    UntagSnoc(before, x);
    HeldAppend(Untag(before), x.event);
  }

  lemma UntagSnoc<Q>(trace: seq<Tagged<Q>>, x: Tagged<Q>)
    ensures Untag(trace + [x]) == Untag(trace) + [x.event]
  {
  }

  // What is handed out is what the threads hold.
  lemma {:induction false} HeldByThreads<Q>(trace: seq<Tagged<Q>>, n: nat, m: nat)
    requires Disciplined(trace) && m <= |trace| && forall x <- trace :: x.thread < n
    ensures Held(Untag(trace[..m])) == Total(trace[..m], n)
  {
    if m == 0 {
      NothingHeld<Q>(n);
    } else {
      hide *;
      HeldByThreads(trace, n, m - 1);
      HeldSnoc(trace, m - 1);
      DisciplinedBefore(trace, m - 1);
      TotalStep(trace[..m - 1], trace[m - 1], n);
    }
  }

  // So threads that give back what they took last never give back more than is handed out: the
  // condition on releases in Allowed holds of the agent's threads, however they interleave.
  lemma ThreadsAreAllowed<Q>(trace: seq<Tagged<Q>>, n: nat, i: nat)
    requires Disciplined(trace) && i < |trace| && forall x <- trace :: x.thread < n
    requires trace[i].event.Release?
    ensures Allowed(Untag(trace[..i]), trace[i].event)
  {
    hide GivesBack;
    hide OwnHeld;
    HeldByThreads(trace, n, i);
    DisciplinedBefore(trace, i);
    OwnHeldStep(trace[..i], trace[i], trace[i].thread);
    OwnInTotal(trace[..i], trace[i].thread, n);
  }

  lemma {:induction false} NothingHeld<Q>(n: nat)
    ensures Total<Q>([], n) == multiset{}
  {
    if n > 0 {
      NothingHeld<Q>(n - 1);
    }
  }
}

module BridgeManager {
  import opened Bytes
  import opened Results
  import opened BridgeRefs

  class Bridgeq {
    const dpid: u64
    var refs: nat

    constructor (dpid: u64)
      ensures this.dpid == dpid && refs == 1
    {
      this.dpid := dpid;
      refs := 1;
    }
  }

  class Manager {
    var table: map<u64, Bridgeq>
    const bridgeqs: array<Bridgeq?>
    var count: nat
    // The queues that have been allocated and not freed, and the references callers hold.
    ghost var live: set<Bridgeq>
    ghost var held: multiset<Bridgeq?>

    ghost function Refs(): map<Bridgeq?, nat>
      reads this`live, live
    {
      map q: Bridgeq | q in live :: q.refs
    }

    ghost function Abs(): State<Bridgeq?>
      requires count <= bridgeqs.Length
      reads this, bridgeqs, live
    {
      State(table, Refs(), bridgeqs[..count])
    }

    ghost predicate Valid()
      reads this, bridgeqs, live
    {
      && bridgeqs.Length == MAX_BRIDGES && count <= MAX_BRIDGES
      && Sound(Abs(), held)
    }

    constructor ()
      ensures Valid() && Abs() == Start() && held == multiset{} && fresh(bridgeqs)
    {
      table := map[];
      bridgeqs := new Bridgeq?[MAX_BRIDGES](_ => null);
      count := 0;
      live := {};
      held := multiset{};
    }

    // ofp_bridgeq_free.
    method Free(q: Bridgeq, force: bool)
      requires q in live
      modifies this`live, q`refs
      ensures live <= old(live)
      ensures Refs() == if force then old(Refs()) - {q} else Drop(old(Refs()), q)
    {
      if q.refs > 1 && !force {
        q.refs := q.refs - 1;
      } else {
        live := live - {q};
      }
    }

    // bridgeqs_clear: the array is zeroed as well.
    method Clear()
      requires bridgeqs.Length == MAX_BRIDGES
      modifies this`count, bridgeqs
      ensures count == 0
    {
      forall i | 0 <= i < bridgeqs.Length {
        bridgeqs[i] := null;
      }
      count := 0;
    }

    // bridgeq_mgr_map_to_array: the hash map is walked in an order of its own.
    method MapToArray() returns (ret: Code)
      requires bridgeqs.Length == MAX_BRIDGES && count == 0 && Injective(table)
      modifies this`count, bridgeqs
      ensures count <= MAX_BRIDGES
      ensures ret == if |table| <= MAX_BRIDGES then OK else ITERATION_HALTED
      ensures ret == OK ==> Lists<Bridgeq?>(bridgeqs[..count], table)
      ensures ret != OK ==> Overflowed<Bridgeq?>(bridgeqs[..count], table)
    {
      ret := OK;
      var rest := table.Keys;
      while rest != {}
        invariant rest <= table.Keys && count <= MAX_BRIDGES && count + |rest| == |table|
        invariant forall q <- bridgeqs[..count] :: q in table.Values
        invariant forall d <- table :: table[d] in bridgeqs[..count] <==> d !in rest
        invariant Distinct(bridgeqs[..count])
        decreases |rest|
      {
        var d :| d in rest;
        if count >= MAX_BRIDGES {
          ret := ITERATION_HALTED;
          return;
        }
        ghost var before := bridgeqs[..count];
        bridgeqs[count] := table[d];
        count := count + 1;
        rest := rest - {d};
        assert bridgeqs[..count] == before + [table[d]];
      }
    }

    // bridge_unregister_internal.
    method UnregisterInternal(dpid: u64, force: bool) returns (ret: Code)
      requires dpid in table ==> table[dpid] in live
      modifies this`table, this`live, if dpid in table then {table[dpid]} else {}
      ensures live <= old(live)
      ensures dpid in old(table) ==>
        && ret == OK && table == old(table) - {dpid}
        && Refs() == if force then old(Refs()) - {old(table)[dpid]} else Drop(old(Refs()), old(table)[dpid])
      ensures dpid !in old(table) ==> ret == NOT_FOUND && table == old(table) && Refs() == old(Refs())
    {
      if dpid in table {
        var q := table[dpid];
        table := table - {dpid};
        Free(q, force);
        ret := OK;
      } else {
        ret := NOT_FOUND;
      }
    }

    // bridge_register_internal, and the clearing of the cache that follows it.
    method Insert(dpid: u64, q: Bridgeq)
      requires bridgeqs.Length == MAX_BRIDGES && q !in live
      modifies this`table, this`live, this`count, bridgeqs
      ensures table == old(table)[dpid := q] && live == old(live) + {q} && count == 0
      ensures Refs() == old(Refs())[q := q.refs]
    {
      table := table[dpid := q];
      live := live + {q};
      Clear();
    }

    // The forced unregistration that takes a queue out again.
    method TakeBack(dpid: u64, q: Bridgeq, ghost was: map<u64, Bridgeq>, ghost refs: map<Bridgeq?, nat>)
      requires dpid !in was && table == was[dpid := q] && q in live
      requires q !in refs && Refs() == refs[q := 1]
      modifies this`table, this`live, q
      ensures table == was && Refs() == refs && live <= old(live)
    {
      hide Refs;
      var _ := UnregisterInternal(dpid, true);
      assert table == was;
      assert refs[q := 1] - {q} == refs;
    }

    // bridge_register, for a queue built for a dpid that is not in the table.
    method RegisterNew(dpid: u64, q: Bridgeq) returns (ret: Code)
      requires Valid() && dpid !in table && q !in live && q.refs == 1
      modifies this`table, this`live, this`count, bridgeqs, q
      ensures Valid() && live <= old(live) + {q}
      ensures Next(old(Abs()), BridgeRefs.Register(dpid, q, ret), Abs())
    {
      hide Next;
      hide Sound;
      hide Lists;
      hide Overflowed;
      ghost var s := Abs();
      assert q !in s.refs;
      SoundAdd(s, held, dpid, q);
      hide Injective;
      hide Refs;
      Insert(dpid, q);
      ret := MapToArray();
      if ret != OK {
        TakeBack(dpid, q, old(table), s.refs);
      }
      RegisterNext(s, held, dpid, q, ret, Abs());
    }

    // ofp_bridgeq_mgr_bridge_register; created is how building the queue's own parts ended.
    method Register(dpid: u64, created: Code) returns (ret: Code, ghost q: Bridgeq?)
      requires Valid()
      modifies this`table, this`live, this`count, bridgeqs
      ensures Valid() && fresh(live - old(live))
      ensures dpid !in old(table) && created != OK ==> ret == created && Abs() == old(Abs())
      ensures dpid in old(table) || created == OK ==>
        q !in old(live) && Next(old(Abs()), BridgeRefs.Register(dpid, q, ret), Abs())
    {
      q := null;
      if dpid in table {
        ret := ALREADY_EXISTS;
      } else if created != OK {
        ret := created;
      } else {
        var queue := new Bridgeq(dpid);
        q := queue;
        assert Abs() == old(Abs());
        ret := RegisterNew(dpid, queue);
      }
    }

    // ofp_bridgeq_mgr_bridge_unregister: the cache is cleared before the dpid is looked up.
    method Unregister(dpid: u64) returns (ret: Code)
      requires Valid()
      modifies this`table, this`live, this`count, bridgeqs, live
      ensures Valid() && live <= old(live)
      ensures Next(old(Abs()), BridgeRefs.Unregister(dpid, ret), Abs())
    {
      hide Next;
      hide Sound;
      hide Lists;
      hide Overflowed;
      hide Drop;
      ghost var s := Abs();
      SoundRemove(s, held, dpid);
      hide Injective;
      assert dpid in table ==> table[dpid] in live;
      hide Refs;
      Clear();
      ret := UnregisterInternal(dpid, false);
      if ret == OK {
        ret := MapToArray();
        UnregisterNext(s, held, dpid, ret, Abs());
      } else {
        UnknownNext(s, held, dpid, Abs());
      }
    }

    // ofp_bridgeq_refs_get.
    method RefsGet(q: Bridgeq)
      requires q in live
      modifies q
      ensures q in old(Refs()) && Refs() == Take(old(Refs()), q)
    {
      q.refs := q.refs + 1;
    }

    // ofp_bridgeq_mgr_bridge_lookup.
    method Lookup(dpid: u64) returns (ret: Code, got: seq<Bridgeq?>)
      requires Valid()
      modifies this`held, if dpid in table then {table[dpid]} else {}
      ensures Valid() && held == old(held) + multiset(got)
      ensures Next(old(Abs()), BridgeRefs.Lookup(dpid, got), Abs())
      ensures ret == (if got == [] then NOT_FOUND else OK)
    {
      hide Sound;
      ghost var s := Abs();
      SoundRemove(s, held, dpid);
      if dpid in table {
        var q := table[dpid];
        assert q in live;
        hide Refs;
        RefsGet(q);
        got := [q];
        ret := OK;
        assert got[1..] == [];
      } else {
        got := [];
        ret := NOT_FOUND;
      }
      held := held + multiset(got);
      NextIsSound(s, old(held), BridgeRefs.Lookup(dpid, got), Abs());
    }

    // The loop of ofp_bridgeq_mgr_bridgeqs_to_array. It follows the cached pointers, so the
    // queues they point to must be in memory.
    method CopyOut(brqs: array<Bridgeq?>) returns (n: nat)
      requires brqs != bridgeqs && count <= brqs.Length && count <= bridgeqs.Length
      requires forall q <- bridgeqs[..count] :: q in live
      modifies brqs, live
      ensures n == count && brqs[..n] == bridgeqs[..count] == old(bridgeqs[..count])
      ensures forall q <- old(bridgeqs[..count]) :: q in old(Refs())
      ensures Refs() == TakeAll(old(Refs()), old(bridgeqs[..count]))
    {
      n := 0;
      ghost var refs: map<Bridgeq?, nat>, cache: seq<Bridgeq?> := Refs(), bridgeqs[..count];
      assert forall q <- cache :: q in refs;
      assert cache[0..] == cache;
      hide Refs;
      hide Take;
      while n < count
        invariant n <= count && bridgeqs[..count] == cache && brqs[..n] == cache[..n]
        invariant forall q <- cache[n..] :: q in Refs()
        invariant TakeAll(refs, cache) == TakeAll(Refs(), cache[n..])
      {
        TakeTurn(Refs(), cache, n);
        hide TakeAll;
        var q := bridgeqs[n];
        assert q == cache[n] && q in cache;
        brqs[n] := q;
        RefsGet(q);
        assert brqs[..n + 1] == brqs[..n] + [q];
        n := n + 1;
      }
    }

    method Snapshot(brqs: array<Bridgeq?>, maxSize: nat) returns (ret: Code, n: nat)
      requires Valid() && brqs != bridgeqs && count <= brqs.Length
      requires forall q <- bridgeqs[..count] :: q in live
      modifies this`held, brqs, live
      ensures Valid()
      ensures maxSize > MAX_BRIDGES ==>
        ret == INVALID_ARGS && Abs() == old(Abs()) && held == old(held) && brqs[..] == old(brqs[..])
      ensures maxSize <= MAX_BRIDGES ==>
        && ret == OK && n <= brqs.Length && held == old(held) + multiset(brqs[..n])
        && Next(old(Abs()), BridgeRefs.Snapshot(brqs[..n]), Abs())
    {
      if maxSize > MAX_BRIDGES {
        return INVALID_ARGS, 0;
      }
      hide Sound;
      hide Refs;
      hide TakeAll;
      n := CopyOut(brqs);
      held := held + multiset(brqs[..n]);
      ret := OK;
      NextIsSound(old(Abs()), old(held), BridgeRefs.Snapshot(brqs[..n]), Abs());
    }

    // One turn of the loop below.
    method ReleaseOne(q: Bridgeq?)
      requires Counted<Bridgeq?>(table, Refs(), held) && q in held
      modifies this`live, this`held, live
      ensures Counted<Bridgeq?>(table, Refs(), held) && live <= old(live)
      ensures held == old(held) - multiset{q} && Refs() == Drop(old(Refs()), q)
    {
      assert q in Refs();
      DropCounts<Bridgeq?>(table, Refs(), held, q);
      assert q in live;
      hide Counted;
      hide Refs;
      hide Drop;
      Free(q, false);
      held := held - multiset{q};
    }

    method ReleaseTurn(brqs: seq<Bridgeq?>, i: nat, ghost held0: multiset<Bridgeq?>)
      requires Counted<Bridgeq?>(table, Refs(), held) && multiset(brqs) <= held0
      requires i < |brqs| && held == held0 - multiset(brqs[..i])
      modifies this`live, this`held, live
      ensures Counted<Bridgeq?>(table, Refs(), held) && live <= old(live)
      ensures held == held0 - multiset(brqs[..i + 1])
      ensures DropAll(Refs(), brqs[i + 1..]) == DropAll(old(Refs()), brqs[i..])
    {
      hide *;
      DropTurn(Refs(), held0, brqs, i);
      ReleaseOne(brqs[i]);
    }

    // ofp_bridgeq_mgr_bridgeqs_free.
    method ReleaseLoop(brqs: seq<Bridgeq?>)
      requires Counted<Bridgeq?>(table, Refs(), held) && multiset(brqs) <= held
      modifies this`live, this`held, live
      ensures held == old(held) - multiset(brqs) && Refs() == DropAll(old(Refs()), brqs)
    {
      hide *;
      ghost var refs := Refs();
      var i := 0;
      assert brqs[..0] == [] && brqs[0..] == brqs;
      while i < |brqs|
        invariant i <= |brqs| && live <= old(live)
        invariant Counted<Bridgeq?>(table, Refs(), held)
        invariant held == old(held) - multiset(brqs[..i])
        invariant DropAll(refs, brqs) == DropAll(Refs(), brqs[i..])
      {
        ReleaseTurn(brqs, i, old(held));
        i := i + 1;
      }
      assert brqs[..i] == brqs && brqs[i..] == [];
      DropNone(Refs());
    }

    method Release(brqs: seq<Bridgeq?>)
      requires Valid() && multiset(brqs) <= held
      modifies this`live, this`held, live
      ensures Valid() && held == old(held) - multiset(brqs)
      ensures Next(old(Abs()), BridgeRefs.Release(brqs), Abs())
    {
      hide Counted;
      hide Refs;
      hide DropAll;
      ReleaseLoop(brqs);
      hide Sound;
      NextIsSound(old(Abs()), old(held), BridgeRefs.Release(brqs), Abs());
    }

    // A round of the main loop with no other thread at work: on every path after the snapshot the
    // same array and count go to the release, whatever the work in between returns.
    method Round(brqs: array<Bridgeq?>, worked: Code) returns (res: Code)
      requires Valid() && brqs != bridgeqs && count <= brqs.Length
      requires forall q <- bridgeqs[..count] :: q in live
      modifies this`live, this`held, brqs, live
      ensures Valid() && held == old(held) && Abs() == old(Abs())
      ensures res == worked
    {
      ghost var s := Abs();
      hide Sound;
      hide Next;
      hide Refs;
      var n;
      res, n := Snapshot(brqs, MAX_BRIDGES);
      res := worked;
      ghost var t, qs := Abs(), brqs[..n];
      Release(brqs[..n]);
      RoundTrip(s, qs, t, Abs());
      assert held == old(held);
      SoundUnique(s, Abs(), held);
    }
  }
}
