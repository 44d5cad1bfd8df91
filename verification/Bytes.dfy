// Fixed-width integers, big-endian words and the sequence facts every codec uses.

module Bytes {

  type u8 = x: int | 0 <= x < 0x100
  type u16 = x: int | 0 <= x < 0x1_0000
  type u32 = x: int | 0 <= x < 0x1_0000_0000
  type u64 = x: int | 0 <= x < 0x1_0000_0000_0000_0000

  // The longest OpenFlow message: OFP_PACKET_MAX_SIZE.
  const PACKET_MAX: nat := 65535

  // The words that start at position i of s, most significant byte first.

  function Word(s: seq<u8>, i: nat): u16
    requires i + 2 <= |s|
  {
    s[i] as int * 0x100 + s[i + 1] as int
  }

  function Long(s: seq<u8>, i: nat): u32
    requires i + 4 <= |s|
  {
    Word(s, i) as int * 0x1_0000 + Word(s, i + 2) as int
  }

  function Quad(s: seq<u8>, i: nat): u64
    requires i + 8 <= |s|
  {
    Long(s, i) as int * 0x1_0000_0000 + Long(s, i + 4) as int
  }

  function Put16(v: u16): (s: seq<u8>)
    ensures |s| == 2 && Word(s, 0) == v
  {
    [v / 0x100, v % 0x100]
  }

  function Put32(v: u32): (s: seq<u8>)
    ensures |s| == 4 && Long(s, 0) == v
  {
    var hi: u16 := v / 0x1_0000;
    var lo: u16 := v % 0x1_0000;
    Put16(hi) + Put16(lo)
  }

  function Put64(v: u64): (s: seq<u8>)
    ensures |s| == 8 && Quad(s, 0) == v
  {
    var hi: u32 := v / 0x1_0000_0000;
    var lo: u32 := v % 0x1_0000_0000;
    var s := Put32(hi) + Put32(lo);
    assert Long(s, 0) == Long(Put32(hi), 0);
    assert Long(s, 4) == Long(Put32(lo), 0);
    s
  }

  // Two bytes are the encoding of the word they spell.
  lemma PutWord(s: seq<u8>)
    requires |s| == 2
    ensures Put16(Word(s, 0)) == s
  {}

  lemma PutLong(s: seq<u8>)
    requires |s| == 4
    ensures Put32(Long(s, 0)) == s
  {
    PutWord(s[..2]);
    PutWord(s[2..]);
    assert s == s[..2] + s[2..];
  }

  // The same at any position.

  lemma PutWordAt(s: seq<u8>, i: nat)
    requires i + 2 <= |s|
    ensures Put16(Word(s, i)) == s[i..i + 2]
  {
    PutWord(s[i..i + 2]);
  }

  lemma PutLongAt(s: seq<u8>, i: nat)
    requires i + 4 <= |s|
    ensures Put32(Long(s, i)) == s[i..i + 4]
  {
    PutLong(s[i..i + 4]);
  }

  lemma PutPair(hi: u32, lo: u32)
    ensures Put64(hi as int * 0x1_0000_0000 + lo) == Put32(hi) + Put32(lo)
  {
    hide Put32;
    hide Quad;
    hide Long;
    var v: u64 := hi as int * 0x1_0000_0000 + lo;
    assert v / 0x1_0000_0000 == hi && v % 0x1_0000_0000 == lo;
  }

  lemma PutQuadAt(s: seq<u8>, i: nat)
    requires i + 8 <= |s|
    ensures Put64(Quad(s, i)) == s[i..i + 8]
  {
    hide Put32;
    hide Put64;
    hide Long;
    PutLongAt(s, i);
    PutLongAt(s, i + 4);
    PutPair(Long(s, i), Long(s, i + 4));
    assert s[i..i + 8] == s[i..i + 4] + s[i + 4..i + 8];
  }

  // Two splits of a sequence at the same place.
  lemma SplitEqual<T>(a: seq<T>, b: seq<T>, c: seq<T>, d: seq<T>)
    requires |a| == |c|
    ensures a + b == c + d <==> a == c && b == d
  {
    assert (a + b)[..|a|] == a && (a + b)[|a|..] == b;
    assert (c + d)[..|c|] == c && (c + d)[|c|..] == d;
  }

  // A word is found where its bytes are.

  lemma WordAt(s: seq<u8>, i: nat, v: u16)
    requires i + 2 <= |s| && s[i..i + 2] == Put16(v)
    ensures Word(s, i) == v
  {
    assert Word(s, i) == Word(s[i..i + 2], 0);
  }

  lemma LongAt(s: seq<u8>, i: nat, v: u32)
    requires i + 4 <= |s| && s[i..i + 4] == Put32(v)
    ensures Long(s, i) == v
  {
    assert Long(s, i) == Long(s[i..i + 4], 0);
  }

  lemma QuadAt(s: seq<u8>, i: nat, v: u64)
    requires i + 8 <= |s| && s[i..i + 8] == Put64(v)
    ensures Quad(s, i) == v
  {
    assert Quad(s, i) == Quad(s[i..i + 8], 0);
  }

  function Zeros(n: nat): (s: seq<u8>)
    ensures |s| == n
  {
    seq(n, _ => 0)
  }

  lemma SliceOfSlice<T>(s: seq<T>, i: nat, j: nat, a: nat, b: nat)
    requires i <= j <= |s| && a <= b <= j - i
    ensures s[i..j][a..b] == s[i + a..i + b]
  {
    var x, y := s[i..j][a..b], s[i + a..i + b];
    forall k | 0 <= k < b - a
      ensures x[k] == y[k]
    {
      assert x[k] == s[i..j][a + k] == s[i + (a + k)];
      assert y[k] == s[(i + a) + k];
    }
  }

  // A subset is no larger.
  lemma {:induction false} SubsetSize<T>(a: set<T>, b: set<T>)
    requires a <= b
    ensures |a| <= |b|
    decreases a
  {
    if a != {} {
      var x :| x in a;
      SubsetSize(a - {x}, b - {x});
    }
  }

  function Flatten<T>(parts: seq<seq<T>>): seq<T>
  {
    if parts == [] then [] else parts[0] + Flatten(parts[1..])
  }

  lemma {:induction false} FlattenConcat<T>(a: seq<seq<T>>, b: seq<seq<T>>)
    ensures Flatten(a + b) == Flatten(a) + Flatten(b)
  {
    if a == [] {
      assert a + b == b;
    } else {
      assert (a + b)[1..] == a[1..] + b;
      FlattenConcat(a[1..], b);
    }
  }

  lemma FlattenAppend<T>(a: seq<seq<T>>, last: seq<T>)
    ensures Flatten(a + [last]) == Flatten(a) + last
  {
    FlattenConcat(a, [last]);
    assert Flatten([last]) == last + Flatten<T>([]);
  }
}
