/** `msgpack_sbuffer`: a byte buffer that grows by doubling. */
module Sbuffer {
  import opened Bytes

  const INIT_SIZE: nat := 8192

  /** `size_t` arithmetic. */
  function Wrap(n: nat): nat { n % TWO_64 }

  class Buffer {
    var data: array?<byte>
    var size: nat
    var alloc: nat

    /** No data is allocated while nothing but the reserved space is in use. */
    ghost predicate Valid()
      reads this
    {
      && size <= alloc < TWO_64
      && if data == null then size == alloc else data.Length == alloc
    }

    /** The bytes written, once something is allocated. */
    ghost function Contents(): seq<byte>
      requires Valid()
      reads this, data
    {
      if data == null then [] else data[..size]
    }

    /** `mp_sbuffer_alloc_init`; reserved bytes have no known contents. */
    constructor (alloc: nat, size: nat)
      requires size <= alloc < TWO_64
      ensures Valid() && this.size == size && this.alloc == alloc
      ensures if size == alloc then data == null else data != null && fresh(data)
    {
      this.size := size;
      this.alloc := alloc;
      if alloc == size { data := null; } else { data := new byte[alloc]; }
    }

    /** The size to grow to. */
    method Grown(len: nat) returns (nsize: nat)
      requires Valid() && size + len < TWO_64
      ensures size + len <= nsize < TWO_64
    {
      nsize := if alloc != 0 then Wrap(alloc * 2) else INIT_SIZE;
      while nsize < size + len
        invariant nsize < TWO_64
        decreases size + len - nsize
      {
        var doubled := Wrap(nsize * 2);
        if doubled <= nsize { return size + len; }
        nsize := doubled;
      }
    }

    /** `memcpy` */
    static method Copy(src: seq<byte>, dst: array<byte>, at: nat)
      requires at + |src| <= dst.Length
      modifies dst
      ensures dst[at..at + |src|] == src && dst[..at + |src|] == old(dst[..at]) + src
    {
      forall i | 0 <= i < |src| { dst[at + i] := src[i]; }
      assert dst[..at + |src|] == old(dst[..at]) + dst[at..at + |src|];
    }

    /** `msgpack_sbuffer_write`; `memory` says whether `realloc` finds room. */
    method Write(buf: seq<byte>, memory: bool) returns (ok: bool)
      requires Valid() && size + |buf| < TWO_64
      modifies this, data
      ensures Valid() && (data != null ==> data == old(data) || fresh(data))
      ensures ok <==> memory || |buf| <= old(alloc) - old(size)
      ensures !ok ==> size == old(size) && data == old(data) && Contents() == old(Contents())
      ensures ok ==> size == old(size) + |buf|
      ensures ok && |buf| > 0 ==> data != null && data[old(size)..size] == buf
      ensures ok && (old(data) != null || old(size) == 0) ==> Contents() == old(Contents()) + buf
    {
      if alloc - size < |buf| {
        var nsize := Grown(|buf|);
        if !memory { return false; }
        var tmp := new byte[nsize];
        if data != null {
          Copy(data[..size], tmp, 0);
        }
        data := tmp;
        alloc := nsize;
      }
      if data != null {
        Copy(buf, data, size);
      }
      size := size + |buf|;
      return true;
    }
  }
}
