// The packet buffer: a fixed block of bytes with a read cursor, a write cursor and
// plen, the number of bytes a decoder may still read or an encoder may still write.

module Results {
  // The result codes the modelled operations return.
  datatype Code =
    | OK
    | ANY_FAILURES
    | OUT_OF_RANGE
    | NO_MEMORY
    | NOT_FOUND
    | ALREADY_EXISTS
    | BUSY
    | INVALID_ARGS
    | NOT_OPERATIONAL
    | OFP_ERROR
    | ITERATION_HALTED
    | UNSUPPORTED
    | EINPROGRESS
}

module Buffer {
  import opened Bytes
  import opened Results

  const PBUF_MIN_SIZE: nat := 1024

  // What pbuf_info_store saves and pbuf_info_load restores.
  datatype Cursors = Cursors(getp: nat, putp: nat, plen: nat)

  // The block after writing b at position i.
  function Overwrite(block: seq<u8>, i: nat, b: seq<u8>): (r: seq<u8>)
    requires i + |b| <= |block|
    ensures |r| == |block|
  {
    block[..i] + b + block[i + |b|..]
  }

  // The data block is a member of the C struct itself, so it is a value held by the object:
  // two buffers never share bytes.
  class Pbuf {
    const size: nat
    var data: seq<u8>
    var getp: nat
    var putp: nat
    var plen: nat

    ghost predicate Valid()
      reads this
    {
      getp <= putp <= |data| == size && PBUF_MIN_SIZE <= size
    }

    // plen does not promise more room than the block has: an encoder may run.
    ghost predicate Writable()
      reads this
    {
      Valid() && putp + plen <= size
    }

    // plen does not promise more bytes than were written: a decoder may run.
    ghost predicate Readable()
      reads this
    {
      Valid() && getp + plen <= putp
    }

    function Cursor(): Cursors
      reads this
    {
      Cursors(getp, putp, plen)
    }

    // The bytes between the cursors.
    function Unread(): seq<u8>
      requires Valid()
      reads this
    {
      data[getp..putp]
    }

    // The bytes a decoder may still take.
    function Rest(): seq<u8>
      requires Readable()
      reads this
    {
      data[getp..getp + plen]
    }

    // Everything written since the last reset.
    function Written(): seq<u8>
      requires Valid()
      reads this
    {
      data[..putp]
    }

    // pbuf_alloc: at least PBUF_MIN_SIZE zero bytes.
    constructor Alloc(length: nat)
      ensures Valid() && size == if length < 1024 then 1024 else length
      ensures Cursor() == Cursors(0, 0, 0) && data == Zeros(size)
    {
      size := if length < PBUF_MIN_SIZE then PBUF_MIN_SIZE else length;
      data := Zeros(if length < PBUF_MIN_SIZE then PBUF_MIN_SIZE else length);
      getp, putp, plen := 0, 0, 0;
    }

    // pbuf_reset, followed by pbuf_plen_set.
    method Reset(length: nat)
      requires Valid()
      modifies this`getp, this`putp, this`plen
      ensures Valid() && Cursor() == Cursors(0, 0, length)
    {
      getp, putp, plen := 0, 0, length;
    }

    // pbuf_info_load.
    method Load(c: Cursors)
      requires Valid() && c.getp <= c.putp <= size
      modifies this`getp, this`putp, this`plen
      ensures Valid() && Cursor() == c
    {
      getp, putp, plen := c.getp, c.putp, c.plen;
    }

    // pbuf_length_get: the distance between the cursors, if it fits 16 bits.
    method Length() returns (ret: Code, length: u16)
      requires Valid()
      ensures ret == OK <==> putp - getp <= 65535
      ensures ret == OK ==> length == putp - getp
      ensures ret != OK ==> ret == OUT_OF_RANGE
    {
      length := (putp - getp) % 0x1_0000;
      ret := if getp + length == putp then OK else OUT_OF_RANGE;
    }

    // A generated encoder, or pbuf_encode: all of b if plen allows it, else nothing.
    method Encode(b: seq<u8>) returns (ret: Code)
      requires Writable()
      modifies this`putp, this`plen, this`data
      ensures Writable()
      ensures ret == if |b| <= old(plen) then OK else OUT_OF_RANGE
      ensures ret == OK ==>
        && putp == old(putp) + |b| && plen == old(plen) - |b|
        && data == Overwrite(old(data), old(putp), b)
        && Written() == old(Written()) + b
      ensures ret != OK ==> unchanged(this)
    {
      if plen < |b| {
        return OUT_OF_RANGE;
      }
      data := Overwrite(data, putp, b);
      putp, plen := putp + |b|, plen - |b|;
      return OK;
    }

    // A generated decoder: the next n bytes if plen covers them, else nothing.
    method Decode(n: nat) returns (ret: Code, b: seq<u8>)
      requires Readable()
      modifies this`getp, this`plen
      ensures Readable()
      ensures ret == if n <= old(plen) then OK else OUT_OF_RANGE
      ensures ret == OK ==>
        && getp == old(getp) + n && plen == old(plen) - n
        && b == old(Rest())[..n] && Rest() == old(Rest())[n..]
      ensures ret != OK ==> unchanged(this) && b == []
    {
      if plen < n {
        return OUT_OF_RANGE, [];
      }
      b := data[getp..getp + n];
      getp, plen := getp + n, plen - n;
      ret := OK;
    }

    // pbuf_forward.
    method Forward(n: nat) returns (ret: Code)
      requires Readable()
      modifies this`getp, this`plen
      ensures Readable()
      ensures ret == if n <= old(plen) then OK else OUT_OF_RANGE
      ensures ret == OK ==>
        getp == old(getp) + n && plen == old(plen) - n && Rest() == old(Rest())[n..]
      ensures ret != OK ==> unchanged(this)
    {
      if plen < n {
        return OUT_OF_RANGE;
      }
      getp, plen := getp + n, plen - n;
      return OK;
    }

    // pbuf_append: the unread bytes of src, if plen has room for all of them.
    method Append(src: Pbuf) returns (ret: Code)
      requires Writable() && src.Valid() && src != this
      modifies this`putp, this`plen, this`data
      ensures Writable()
      ensures ret == if |src.Unread()| <= old(plen) then OK else OUT_OF_RANGE
      ensures ret == OK ==>
        && putp == old(putp) + |src.Unread()| && plen == old(plen) - |src.Unread()|
        && Written() == old(Written()) + src.Unread()
      ensures ret != OK ==> unchanged(this)
    {
      ret := Encode(src.Unread());
    }

    // pbuf_copy: the check is against the whole block; that the bytes fit behind the write
    // cursor is asserted by the source and is a precondition here.
    method Copy(b: seq<u8>) returns (ret: Code)
      requires Valid() && (|b| <= size ==> putp + |b| <= size)
      modifies this`putp, this`plen, this`data
      ensures Valid()
      ensures ret == if |b| <= size then OK else OUT_OF_RANGE
      ensures ret == OK ==>
        && plen == old(plen) + |b| && putp == old(putp) + |b|
        && Written() == old(Written()) + b
      ensures ret != OK ==> unchanged(this)
    {
      if size < |b| {
        return OUT_OF_RANGE;
      }
      data := Overwrite(data, putp, b);
      putp, plen := putp + |b|, plen + |b|;
      return OK;
    }
  }
}
