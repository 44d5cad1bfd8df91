// Lengths of type-length-value elements: 16-bit sums with overflow detection, padding to
// eight bytes, and length fields written into bytes that are already in the buffer.

module Tlv {
  import opened Bytes
  import opened Results
  import opened Buffer

  // A length as a 16-bit field stores it.
  function Field(n: nat): u16
  {
    n % 0x1_0000
  }

  // GET_64BIT_PADDING_LENGTH
  function Pad(n: nat): (p: nat)
    ensures p < 8 && (n + p) % 8 == 0
  {
    (n + 7) / 8 * 8 - n
  }

  // ofp_tlv_length_sum: add, let it wrap, and call it an overflow if the sum came out
  // smaller than what was added. It does so exactly when the true sum needs more bits.
  method LengthSum(total: u16, length: u16) returns (ret: Code, sum: u16)
    ensures ret == OK <==> total + length <= 65535
    ensures ret == OK ==> sum == total + length
    ensures ret != OK ==> ret == OUT_OF_RANGE
  {
    sum := (total + length) % 0x1_0000;
    ret := if sum < length then OUT_OF_RANGE else OK;
  }

  function Sum(lengths: seq<u16>): nat
  {
    if lengths == [] then 0 else Sum(lengths[..|lengths| - 1]) + lengths[|lengths| - 1]
  }

  lemma {:induction false} SumIsMonotone(lengths: seq<u16>, k: nat)
    requires k <= |lengths|
    ensures Sum(lengths[..k]) <= Sum(lengths)
    decreases |lengths|
  {
    if k < |lengths| {
      assert lengths[..|lengths| - 1][..k] == lengths[..k];
      SumIsMonotone(lengths[..|lengths| - 1], k);
    } else {
      assert lengths[..k] == lengths;
    }
  }

  // Every encoder's loop of sums: it succeeds exactly when the true total fits 16 bits.
  method SumChain(lengths: seq<u16>) returns (ret: Code, total: u16)
    ensures ret == OK <==> Sum(lengths) <= 65535
    ensures ret == OK ==> total == Sum(lengths)
  {
    ret, total := OK, 0;
    for k := 0 to |lengths|
      invariant ret == OK && total == Sum(lengths[..k])
    {
      assert lengths[..k + 1][..k] == lengths[..k];
      ret, total := LengthSum(total, lengths[k]);
      if ret != OK {
        SumIsMonotone(lengths, k + 1);
        return;
      }
    }
    assert lengths[..|lengths|] == lengths;
  }

  // ofp_tlv_length_set and ofp_multipart_length_set: two bytes of the buffer at position at.
  method LengthSet(p: Pbuf, at: nat, length: u16)
    requires p.Valid() && at + 2 <= p.putp
    modifies p`data
    ensures p.Valid()
    ensures p.Written() == Overwrite(old(p.Written()), at, Put16(length))
  {
    p.data := Overwrite(p.data, at, Put16(length));
    assert p.Written() == Overwrite(old(p.Written()), at, Put16(length));
  }

  // Overwriting the length at the front of what was written last.
  lemma PatchFront(before: seq<u8>, length: u16, rest: seq<u8>, final: u16)
    ensures Overwrite(before + (Put16(length) + rest), |before|, Put16(final)) == before + (Put16(final) + rest)
  {
    hide Put16;
    var w := before + (Put16(length) + rest);
    assert w[..|before|] == before;
    assert w[|before| + 2..] == rest;
  }

  // ofp_padding_encode: zero bytes up to a multiple of eight, counted into length.
  method PaddingEncode(p: Pbuf, length: u16) returns (ret: Code, total: u16)
    requires p.Writable()
    modifies p`putp, p`plen, p`data
    ensures p.Writable() && p.plen <= old(p.plen)
    ensures ret == OK <==> Pad(length) <= old(p.plen) && length + Pad(length) <= 65535
    ensures ret == OK ==>
      && total == length + Pad(length) && p.plen == old(p.plen) - Pad(length)
      && p.Written() == old(p.Written()) + Zeros(Pad(length))
  {
    total := length;
    ret := p.Encode(Zeros(Pad(length)));
    if ret == OK {
      ret, total := LengthSum(length, Pad(length));
    }
  }
}
