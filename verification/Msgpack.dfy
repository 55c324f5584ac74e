/** MessagePack values and the packer, which picks the shortest format for every value. */
module Msgpack {
  import opened Bytes

  /** A value on the wire.  Floats are kept as bits; keys and values of a map alternate in `flat`. */
  datatype Value =
    | Nil
    | Bool(b: bool)
    | Int(i: int)
    | F32(bits: nat)
    | F64(bits: nat)
    | Str(bytes: seq<byte>)
    | Bin(bytes: seq<byte>)
    | Ext(tp: int, bytes: seq<byte>)
    | Arr(items: seq<Value>)
    | Map(flat: seq<Value>)

  const TWO_63: int := 0x8000_0000_0000_0000
  const TWO_31: int := 0x8000_0000

  /** The values the packer is made for: 64-bit integers, and lengths below 2^32. */
  predicate Packable(v: Value) {
    match v
    case Nil => true
    case Bool(_) => true
    case Int(i) => -TWO_63 <= i < TWO_64
    case F32(bits) => bits < TWO_32
    case F64(bits) => bits < TWO_64
    case Str(bytes) => |bytes| < TWO_32
    case Bin(bytes) => |bytes| < TWO_32
    case Ext(tp, bytes) => -128 <= tp < 128 && |bytes| < TWO_32
    case Arr(items) => |items| < TWO_32 && forall x | x in items :: Packable(x)
    case Map(flat) => |flat| % 2 == 0 && |flat| / 2 < TWO_32 && forall x | x in flat :: Packable(x)
  }

  // ---- big-endian numbers ----

  function Pow256(w: nat): (r: nat)
    ensures r > 0
  {
    if w == 0 then 1 else 256 * Pow256(w - 1)
  }

  lemma Pow256Values()
    ensures Pow256(1) == 0x100 && Pow256(2) == 0x1_0000 && Pow256(4) == TWO_32 && Pow256(8) == TWO_64
  {
    assert Pow256(3) == 0x100_0000;
    assert Pow256(5) == 0x100_0000_0000;
    assert Pow256(6) == 0x1_0000_0000_0000;
    assert Pow256(7) == 0x100_0000_0000_0000;
  }

  /** `_msgpack_store16`, `_32` and `_64`: the low `w` bytes, most significant first. */
  function Store(n: nat, w: nat): (s: seq<byte>)
    ensures |s| == w
  {
    if w == 0 then [] else Store(n / 256, w - 1) + [n % 256]
  }

  /** `_msgpack_load16`, `_32` and `_64`. */
  function Load(s: seq<byte>): nat {
    if s == [] then 0 else Load(s[..|s| - 1]) * 256 + s[|s| - 1]
  }

  lemma {:induction false} LoadStore(n: nat, w: nat)
    requires n < Pow256(w)
    ensures Load(Store(n, w)) == n
    decreases w
  {
    if w > 0 {
      assert n / 256 < Pow256(w - 1);
      LoadStore(n / 256, w - 1);
      assert Store(n, w)[..w - 1] == Store(n / 256, w - 1);
    }
  }

  lemma {:induction false} LoadRange(s: seq<byte>)
    ensures Load(s) < Pow256(|s|)
    decreases |s|
  {
    if s != [] { LoadRange(s[..|s| - 1]); }
  }

  /** A negative number as stored in `w` bytes. */
  function Twos(i: int, w: nat): (n: nat)
    requires -(Pow256(w) as int) <= i < Pow256(w)
  {
    if i < 0 then i + Pow256(w) else i
  }

  // ---- the packer ----

  /** `msgpack_pack_real_uint64` */
  function PackUnsigned(d: nat): seq<byte>
    requires d < TWO_64
  {
    if d < 0x100 then if d < 0x80 then [d] else [0xcc, d]
    else if d < 0x1_0000 then [0xcd] + Store(d, 2)
    else if d < TWO_32 then [0xce] + Store(d, 4)
    else [0xcf] + Store(d, 8)
  }

  /** `msgpack_pack_real_int64` */
  function PackSigned(d: int): seq<byte>
    requires -TWO_63 <= d < TWO_63
  {
    Pow256Values();
    if d < -0x20 then
      if d < -0x8000 then
        if d < -TWO_31 then [0xd3] + Store(Twos(d, 8), 8) else [0xd2] + Store(Twos(d, 4), 4)
      else if d < -0x80 then [0xd1] + Store(Twos(d, 2), 2)
      else [0xd0, d + 0x100]
    else if d < 0 then [d + 0x100]
    else if d < 0x80 then [d]
    else if d < 0x1_0000 then if d < 0x100 then [0xcc, d] else [0xcd] + Store(d, 2)
    else if d < TWO_32 then [0xce] + Store(d, 4)
    else [0xcf] + Store(d, 8)
  }

  /** The two integer packers agree wherever both apply. */
  lemma PackersAgree(d: nat)
    requires d < TWO_63
    ensures PackSigned(d) == PackUnsigned(d)
  {
  }

  function PackStrHeader(l: nat): seq<byte> {
    if l < 32 then [0xa0 + l] else if l < 0x100 then [0xd9, l]
    else if l < 0x1_0000 then [0xda] + Store(l, 2) else [0xdb] + Store(l, 4)
  }

  function PackBinHeader(l: nat): seq<byte> {
    if l < 0x100 then [0xc4, l] else if l < 0x1_0000 then [0xc5] + Store(l, 2) else [0xc6] + Store(l, 4)
  }

  function PackExtHeader(l: nat, tp: byte): seq<byte> {
    if l == 1 then [0xd4, tp] else if l == 2 then [0xd5, tp] else if l == 4 then [0xd6, tp]
    else if l == 8 then [0xd7, tp] else if l == 16 then [0xd8, tp]
    else if l < 0x100 then [0xc7, l, tp]
    else if l < 0x1_0000 then [0xc8] + Store(l, 2) + [tp]
    else [0xc9] + Store(l, 4) + [tp]
  }

  function PackArrHeader(n: nat): seq<byte> {
    if n < 16 then [0x90 + n] else if n < 0x1_0000 then [0xdc] + Store(n, 2) else [0xdd] + Store(n, 4)
  }

  function PackMapHeader(n: nat): seq<byte> {
    if n < 16 then [0x80 + n] else if n < 0x1_0000 then [0xde] + Store(n, 2) else [0xdf] + Store(n, 4)
  }

  function Pack(v: Value): (s: seq<byte>)
    requires Packable(v)
    ensures s != []
    decreases v, 0
  {
    match v
    case Nil => [0xc0]
    case Bool(b) => [if b then 0xc3 else 0xc2]
    case Int(i) => if i < 0 then PackSigned(i) else PackUnsigned(i)
    case F32(bits) => [0xca] + Store(bits, 4)
    case F64(bits) => [0xcb] + Store(bits, 8)
    case Str(bytes) => PackStrHeader(|bytes|) + bytes
    case Bin(bytes) => PackBinHeader(|bytes|) + bytes
    case Ext(tp, bytes) => PackExtHeader(|bytes|, if tp < 0 then tp + 256 else tp) + bytes
    case Arr(items) => PackArrHeader(|items|) + PackAll(items)
    case Map(flat) => PackMapHeader(|flat| / 2) + PackAll(flat)
  }

  function PackAll(vs: seq<Value>): (s: seq<byte>)
    requires forall x | x in vs :: Packable(x)
    ensures |s| >= |vs|
    decreases vs, 1
  {
    if vs == [] then [] else Pack(vs[0]) + PackAll(vs[1..])
  }
}
