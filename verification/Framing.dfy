// Stream framing: the byte stream of a connection is cut into OpenFlow messages by the
// length in each header, whatever pieces the socket delivers it in.

module Framing {
  import opened Bytes

  const OFP_HEADER: nat := 8

  // The length a message announces.
  function Announced(s: seq<u8>): u16
    requires |s| >= OFP_HEADER
  {
    Word(s, 2)
  }

  // s begins with a whole message.
  predicate Ready(s: seq<u8>)
  {
    |s| >= OFP_HEADER && |s| >= Announced(s)
  }

  datatype Cut = Cut(messages: seq<seq<u8>>, rest: seq<u8>)

  // The canonical framing of s: its whole messages and what is left.
  function Frames(s: seq<u8>): Cut
    requires WellFramed(s)
    decreases |s|
  {
    if !Ready(s) then Cut([], s)
    else
      var cut := Frames(s[Announced(s)..]);
      Cut([s[..Announced(s)]] + cut.messages, cut.rest)
  }

  // No header that is reached when s is cut announces length 0.
  predicate WellFramed(s: seq<u8>)
    decreases |s|
  {
    Ready(s) ==> 0 < Announced(s) && WellFramed(s[Announced(s)..])
  }

  lemma FramesUnfold(s: seq<u8>)
    requires WellFramed(s)
    ensures !Ready(s) ==> Frames(s) == Cut([], s)
    ensures Ready(s) ==>
      var n := Announced(s);
      && 0 < n && WellFramed(s[n..])
      && Frames(s) == Cut([s[..n]] + Frames(s[n..]).messages, Frames(s[n..]).rest)
  {}

  // A message that was taken joins those in front of it.
  lemma FramesTaken(s: seq<u8>, done: seq<seq<u8>>, now: seq<u8>)
    requires WellFramed(s) && WellFramed(now) && Ready(now)
    requires Frames(s) == Cut(done + Frames(now).messages, Frames(now).rest)
    ensures
      var later := Frames(now[Announced(now)..]);
      Frames(s) == Cut(done + [now[..Announced(now)]] + later.messages, later.rest)
  {
    FramesUnfold(now);
    hide *;
    var m, later := now[..Announced(now)], Frames(now[Announced(now)..]).messages;
    assert done + ([m] + later) == done + [m] + later;
  }

  // What is left of s in front of message i of a cut.
  function Left(cut: Cut, i: nat): seq<u8>
    requires i <= |cut.messages|
  {
    Flatten(cut.messages[i..]) + cut.rest
  }

  // What it means to cut s into messages, without saying how: each message is as long as the
  // header in front of it announces, and no whole message is left. A length below that of a
  // header is taken at its word.
  predicate Tiles(s: seq<u8>, cut: Cut)
  {
    && Left(cut, 0) == s && !Ready(cut.rest)
    && forall i :: 0 <= i < |cut.messages| ==>
      Ready(Left(cut, i)) && |cut.messages[i]| == Announced(Left(cut, i))
  }

  function Tail(cut: Cut): Cut
    requires cut.messages != []
  {
    Cut(cut.messages[1..], cut.rest)
  }

  lemma LeftOfTail(cut: Cut, i: nat)
    requires cut.messages != [] && i < |cut.messages|
    ensures Left(Tail(cut), i) == Left(cut, i + 1)
  {
    assert cut.messages[1..][i..] == cut.messages[i + 1..];
  }

  lemma LeftUnfold(cut: Cut)
    requires cut.messages != []
    ensures Left(cut, 0) == cut.messages[0] + Left(Tail(cut), 0)
  {
    assert cut.messages[0..] == cut.messages && cut.messages[1..][0..] == cut.messages[1..];
  }

  // One message more in front of a tiling.
  lemma TilesCons(s: seq<u8>, cut: Cut)
    requires cut.messages != [] && Ready(s) && cut.messages[0] == s[..Announced(s)]
    requires Tiles(s[Announced(s)..], Tail(cut))
    ensures Tiles(s, cut)
  {
    hide Announced;
    LeftUnfold(cut);
    assert s == s[..Announced(s)] + s[Announced(s)..];
    forall i | 0 <= i < |cut.messages|
      ensures Ready(Left(cut, i)) && |cut.messages[i]| == Announced(Left(cut, i))
    {
      if i > 0 {
        LeftOfTail(cut, i - 1);
        assert cut.messages[i] == Tail(cut).messages[i - 1];
      }
    }
  }

  lemma {:induction false} FramesTile(s: seq<u8>)
    requires WellFramed(s)
    ensures Tiles(s, Frames(s))
    decreases |s|
  {
    hide Announced;
    FramesUnfold(s);
    if Ready(s) {
      FramesTile(s[Announced(s)..]);
      assert Tail(Frames(s)) == Frames(s[Announced(s)..]);
      hide Tiles;
      TilesCons(s, Frames(s));
    } else {
      assert Left(Cut([], s), 0) == s;
    }
  }

  // The first message of a tiling is the one the stream announces.
  lemma TilesUnfold(s: seq<u8>, cut: Cut)
    requires Tiles(s, cut) && cut.messages != []
    ensures Ready(s) && Announced(s) == |cut.messages[0]|
    ensures s[..Announced(s)] == cut.messages[0]
    ensures Tiles(s[Announced(s)..], Tail(cut))
  {
    hide Announced;
    LeftUnfold(cut);
    var m, tail := cut.messages[0], Tail(cut);
    assert s[..|m|] == m && s[|m|..] == Left(tail, 0);
    hide Left;
    forall i | 0 <= i < |tail.messages|
      ensures Ready(Left(tail, i)) && |tail.messages[i]| == Announced(Left(tail, i))
    {
      LeftOfTail(cut, i);
      assert tail.messages[i] == cut.messages[i + 1];
    }
  }

  // There is only one way to cut a stream, and a stream that can be cut at all reaches no header
  // that announces 0.
  lemma {:induction false} FramesAreUnique(s: seq<u8>, cut: Cut)
    requires Tiles(s, cut)
    ensures WellFramed(s) && cut == Frames(s)
    decreases |cut.messages|
  {
    hide Announced;
    if cut.messages == [] {
      assert cut.messages[0..] == [];
      assert s == Flatten<u8>([]) + cut.rest == cut.rest;
    } else {
      TilesUnfold(s, cut);
      FramesAreUnique(s[Announced(s)..], Tail(cut));
      assert s[0..] == s;
    }
  }

  // A stream has a cut exactly when no header that is reached announces 0.
  lemma CutIff(s: seq<u8>)
    ensures (exists cut :: Tiles(s, cut)) <==> WellFramed(s)
  {
    if WellFramed(s) {
      FramesTile(s);
    }
    forall cut | Tiles(s, cut)
      ensures WellFramed(s)
    {
      FramesAreUnique(s, cut);
    }
  }

  // What the reading loop has left after k rounds.
  function After(s: seq<u8>, k: nat): seq<u8>
  {
    if k == 0 || !Ready(s) then s else After(s[Announced(s)..], k - 1)
  }

  // A header that announces 0 is dispatched as an empty message and left in front.
  lemma ZeroHeaderStays(s: seq<u8>, k: nat)
    requires |s| >= OFP_HEADER && Announced(s) == 0
    ensures Ready(s) && After(s, k) == s
    decreases k
  {
    if k > 0 {
      assert s[0..] == s;
      ZeroHeaderStays(s, k - 1);
    }
  }

  lemma {:induction false} EndsIn(s: seq<u8>) returns (k: nat)
    requires WellFramed(s)
    ensures !Ready(After(s, k))
    decreases |s|
  {
    hide Announced;
    if Ready(s) {
      k := EndsIn(s[Announced(s)..]);
      k := k + 1;
    } else {
      k := 0;
    }
  }

  lemma {:induction false} NeverEnds(s: seq<u8>, k: nat)
    requires !WellFramed(s)
    ensures Ready(After(s, k))
    decreases k
  {
    if k > 0 {
      if Announced(s) == 0 {
        ZeroHeaderStays(s, k);
      } else {
        NeverEnds(s[Announced(s)..], k - 1);
      }
    }
  }

  // The reading loop ends exactly when no header that is reached announces 0.
  lemma LoopEndsIff(s: seq<u8>)
    ensures (exists k: nat :: !Ready(After(s, k))) <==> WellFramed(s)
  {
    if WellFramed(s) {
      var k := EndsIn(s);
    } else {
      forall k: nat
        ensures Ready(After(s, k))
      {
        NeverEnds(s, k);
      }
    }
  }

  // The shortest such stream: version 4, type 0, length 0, transaction 0.
  lemma ZeroLengthHangs(k: nat)
    ensures Ready(After([4, 0, 0, 0, 0, 0, 0, 0], k)) && !WellFramed([4, 0, 0, 0, 0, 0, 0, 0])
  {
    ZeroHeaderStays([4, 0, 0, 0, 0, 0, 0, 0], k);
  }

  // The residue is less than one message, so a buffer of 64 KB always has room to read into.
  lemma RestIsShort(s: seq<u8>)
    requires WellFramed(s)
    ensures |Frames(s).rest| < PACKET_MAX
  {
    FramesTile(s);
  }

  // Bytes that arrive later do not change the message at the front.
  lemma ReadyAppend(a: seq<u8>, b: seq<u8>)
    requires |a| >= OFP_HEADER
    ensures Announced(a + b) == Announced(a)
    ensures Ready(a) ==>
      Ready(a + b) && (a + b)[..Announced(a)] == a[..Announced(a)]
      && (a + b)[Announced(a)..] == a[Announced(a)..] + b
  {}

  // The cut of a stream whose first message is m.
  lemma FramesCons(m: seq<u8>, s: seq<u8>, t: seq<u8>)
    requires Ready(s) && m == s[..Announced(s)] && t == s[Announced(s)..]
    ensures WellFramed(s) <==> m != [] && WellFramed(t)
    ensures WellFramed(s) ==> Frames(s) == Cut([m] + Frames(t).messages, Frames(t).rest)
  {
  }

  lemma {:induction false} FramesAppend(a: seq<u8>, b: seq<u8>)
    requires WellFramed(a + b)
    ensures WellFramed(a) && WellFramed(Frames(a).rest + b)
    ensures
      var later := Frames(Frames(a).rest + b);
      Frames(a + b) == Cut(Frames(a).messages + later.messages, later.rest)
    decreases |a|
  {
    if Ready(a) {
      ReadyAppend(a, b);
      var m, t := a[..Announced(a)], a[Announced(a)..];
      FramesCons(m, a + b, t + b);
      FramesCons(m, a, t);
      hide WellFramed;
      hide Frames;
      hide Announced;
      FramesAppend(t, b);
      var early, later := Frames(t), Frames(Frames(t).rest + b);
      assert [m] + (early.messages + later.messages) == [m] + early.messages + later.messages;
    } else {
      assert Frames(a) == Cut([], a);
    }
  }

  lemma {:induction false} WellFramedAppend(a: seq<u8>, b: seq<u8>)
    ensures WellFramed(a + b) <==> WellFramed(a) && WellFramed(Frames(a).rest + b)
    decreases |a|
  {
    if WellFramed(a + b) {
      FramesAppend(a, b);
    } else if Ready(a) && WellFramed(a) {
      ReadyAppend(a, b);
      var m, t := a[..Announced(a)], a[Announced(a)..];
      FramesCons(m, a + b, t + b);
      FramesCons(m, a, t);
      hide WellFramed;
      hide Frames;
      hide Announced;
      WellFramedAppend(t, b);
    }
  }

  // The reading loop ends after every piece.
  predicate AllEnd(chunks: seq<seq<u8>>)
  {
    chunks == [] ||
    var n := |chunks| - 1;
    AllEnd(chunks[..n]) && WellFramed(Flatten(chunks[..n])) && WellFramed(Frames(Flatten(chunks[..n])).rest + chunks[n])
  }

  // Whether the reader ever hangs does not depend on the pieces either.
  lemma {:induction false} HangingDoesNotDependOnChunks(chunks: seq<seq<u8>>)
    ensures AllEnd(chunks) <==> WellFramed(Flatten(chunks))
    decreases |chunks|
  {
    if chunks != [] {
      var n := |chunks| - 1;
      HangingDoesNotDependOnChunks(chunks[..n]);
      FlattenAppend(chunks[..n], chunks[n]);
      assert chunks == chunks[..n] + [chunks[n]];
      WellFramedAppend(Flatten(chunks[..n]), chunks[n]);
    }
  }

  // What is dispatched and kept when the stream arrives in pieces.
  function Receive(chunks: seq<seq<u8>>): (cut: Cut)
    requires WellFramed(Flatten(chunks))
    ensures cut == Frames(Flatten(chunks))
    decreases |chunks|
  {
    if chunks == [] then Cut([], [])
    else
      var n := |chunks| - 1;
      FlattenAppend(chunks[..n], chunks[n]);
      assert chunks == chunks[..n] + [chunks[n]];
      FramesAppend(Flatten(chunks[..n]), chunks[n]);
      var before := Receive(chunks[..n]);
      var now := Frames(before.rest + chunks[n]);
      Cut(before.messages + now.messages, now.rest)
  }

  // The main property: two ways of receiving the same bytes dispatch the same messages.
  lemma ChunkingDoesNotMatter(a: seq<seq<u8>>, b: seq<seq<u8>>)
    requires Flatten(a) == Flatten(b) && WellFramed(Flatten(a))
    ensures Receive(a) == Receive(b)
    ensures Tiles(Flatten(a), Receive(a))
  {
    FramesTile(Flatten(a));
  }
}

module StreamReader {
  import opened Bytes
  import opened Results
  import opened Buffer
  import opened Framing

  // OFP_PBUF_SIZE
  const INPUT_SIZE: nat := 65536

  // A dispatched buffer: its unread bytes are the message and plen counts them.
  ghost predicate Holds(p: Pbuf, m: seq<u8>)
    reads p
  {
    p.Readable() && p.plen == |m| && p.Unread() == m
  }

  class Channel {
    var input: Pbuf

    ghost predicate Valid()
      reads this, input
    {
      input.Valid() && input.getp == 0 && input.size == INPUT_SIZE
    }

    constructor ()
      ensures Valid() && fresh(input) && input.Unread() == []
    {
      input := new Pbuf.Alloc(INPUT_SIZE);
    }

    // channelq_data_create: if the input starts with a whole message, hand its buffer over
    // and move the bytes behind it to a new one.
    method TakeMessage() returns (ok: bool, p: Pbuf)
      requires Valid()
      modifies this, input
      ensures Valid() && ok == old(Ready(input.Unread()))
      ensures !ok ==> input == old(input) && input.Unread() == old(input.Unread())
      ensures ok ==>
        var s, n := old(input.Unread()), Announced(old(input.Unread()));
        && fresh(input) && p == old(input) && Holds(p, s[..n]) && input.Unread() == s[n..]
    {
      p := input;
      // channel_packet_ready
      p.plen := p.putp - p.getp;
      if p.plen < OFP_HEADER {
        return false, p;
      }
      var length := Word(p.data[p.getp..p.getp + OFP_HEADER], 2);
      assert length == Announced(p.Unread());
      if p.plen < length {
        return false, p;
      }
      p.plen := length;
      input := new Pbuf.Alloc(INPUT_SIZE);
      // pbuf_copy_unread_data
      var tail := p.data[p.getp + length..p.putp];
      var ret := input.Copy(tail);
      p.putp := p.putp - |tail|;
      return true, p;
    }

    // The loop of channel_read: dispatch every whole message. It ends for exactly the inputs of
    // the precondition, as LoopEndsIff says.
    method Dispatch() returns (out: seq<Pbuf>)
      requires Valid() && WellFramed(input.Unread())
      modifies this, input
      ensures Valid() && (input == old(input) || fresh(input))
      ensures input.Unread() == old(Frames(input.Unread()).rest)
      ensures |out| == |old(Frames(input.Unread()).messages)|
      ensures forall i :: 0 <= i < |out| ==>
        out[i] != input && Holds(out[i], old(Frames(input.Unread()).messages[i]))
    {
      hide Holds;
      hide Frames;
      hide WellFramed;
      hide Announced;
      hide Pbuf.Unread;
      hide Pbuf.Valid;
      ghost var s := input.Unread();
      ghost var done: seq<seq<u8>> := [];
      out := [];
      while true
        invariant Valid() && (input == old(input) || fresh(input))
        invariant WellFramed(input.Unread())
        invariant Frames(s) == Cut(done + Frames(input.Unread()).messages, Frames(input.Unread()).rest)
        invariant |out| == |done|
        invariant forall i :: 0 <= i < |out| ==>
          out[i] != input && (out[i] == old(input) || fresh(out[i])) && Holds(out[i], done[i])
        decreases |input.Unread()|
      {
        ghost var now := input.Unread();
        FramesUnfold(now);
        var ok, p := TakeMessage();
        if !ok {
          assert done + [] == done;
          break;
        }
        ghost var m := now[..Announced(now)];
        FramesTaken(s, done, now);
        done := done + [m];
        out := out + [p];
      }
    }

    // channel_read once n bytes have been read from the socket into the input buffer.
    method Read(chunk: seq<u8>) returns (out: seq<Pbuf>)
      requires Valid() && 0 < |chunk| <= input.size - input.putp
      requires WellFramed(input.Unread() + chunk)
      modifies this, input
      ensures Valid() && (input == old(input) || fresh(input))
      ensures input.putp < input.size
      ensures
        var cut := Frames(old(input.Unread()) + chunk);
        && input.Unread() == cut.rest && |out| == |cut.messages|
        && forall i :: 0 <= i < |out| ==> out[i] != input && Holds(out[i], cut.messages[i])
    {
      var ret := input.Copy(chunk);
      assert input.Unread() == old(input.Unread()) + chunk;
      RestIsShort(input.Unread());
      out := Dispatch();
    }
  }
}
