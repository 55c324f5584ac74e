/** What the packer writes, `mp_next` reads back. */
module MpackRoundTrip {
  import opened Bytes
  import opened Msgpack
  import opened Mpack
  import opened MpackAgree

  lemma StandsFirst(data: seq<byte>, pt: nat, t: byte, b: seq<byte>)
    requires Stands(data, pt, [t] + b)
    ensures pt < |data| && data[pt] == t && Stands(data, pt + 1, b)
  {
    StandsSplit(data, pt, [t], b);
    assert data[pt..pt + 1][0] == t;
  }

  lemma ReadStored(data: seq<byte>, pt: nat, n: nat, w: nat)
    requires w > 0 && n < Pow256(w) && Stands(data, pt, Store(n, w))
    ensures ReadN(data, pt, w) == Some(n)
  {
    LoadStore(n, w);
  }

  /** `Next` read the leaf `v` and took the bytes `s`. */
  predicate Reads(data: seq<byte>, pt: nat, v: Value, s: seq<byte>) {
    var r := Next(data, pt);
    !r.o.Failed? && !r.o.OArr? && !r.o.OMap? && Leaf(r.o) == v && r.pt == pt + |s|
  }

  lemma ReadUnsigned(data: seq<byte>, pt: nat, d: nat)
    requires d < TWO_64 && Stands(data, pt, PackUnsigned(d))
    ensures Reads(data, pt, Int(d), PackUnsigned(d))
  {
    Pow256Values();
    var s := PackUnsigned(d);
    assert s == [s[0]] + s[1..];
    StandsFirst(data, pt, s[0], s[1..]);
    if d >= 0x80 {
      var w := if d < 0x100 then 1 else if d < 0x1_0000 then 2 else if d < TWO_32 then 4 else 8;
      assert Store(d, 1) == [d % 256];
      assert s[1..] == Store(d, w);
      ReadStored(data, pt + 1, d, w);
    }
  }

  /** A negative number survives two's complement in any width that holds it. */
  lemma TwosBack(d: int, w: nat)
    requires -(Pow256(w) as int) <= 2 * d < 0
    ensures Twos(d, w) < Pow256(w) && SignedOf(Twos(d, w), w) == d
  {
  }

  lemma ReadNegative(data: seq<byte>, pt: nat, d: int)
    requires -TWO_63 <= d < 0 && Stands(data, pt, PackSigned(d))
    ensures Reads(data, pt, Int(d), PackSigned(d))
  {
    Pow256Values();
    var s := PackSigned(d);
    assert s == [s[0]] + s[1..];
    StandsFirst(data, pt, s[0], s[1..]);
    if d < -0x20 {
      var w := if d < -TWO_31 then 8 else if d < -0x8000 then 4 else if d < -0x80 then 2 else 1;
      TwosBack(d, w);
      assert Store(Twos(d, w), 1) == [Twos(d, w) % 256];
      assert s[1..] == Store(Twos(d, w), w);
      ReadStored(data, pt + 1, Twos(d, w), w);
      ReadInt(data, pt, d, w);
    }
  }

  lemma ReadInt(data: seq<byte>, pt: nat, d: int, w: nat)
    requires pt < |data| && data[pt] == if w == 1 then 0xd0 else if w == 2 then 0xd1 else if w == 4 then 0xd2 else 0xd3
    requires w == 1 || w == 2 || w == 4 || w == 8
    requires var r := ReadN(data, pt + 1, w); r.Some? && SignedOf(r.value, w) == d
    ensures Next(data, pt) == Read(OI64(d), pt + 1 + w)
  {
    hide ReadN, SignedOf;
  }

  lemma ReadFloat(data: seq<byte>, pt: nat, bits: nat, w: nat)
    requires w == 4 || w == 8
    requires bits < Pow256(w)
    requires Stands(data, pt, [if w == 4 then 0xca else 0xcb] + Store(bits, w))
    ensures Reads(data, pt, if w == 4 then Value.F32(bits) else Value.F64(bits),
                  [if w == 4 then 0xca else 0xcb] + Store(bits, w))
  {
    StandsFirst(data, pt, if w == 4 then 0xca else 0xcb, Store(bits, w));
    ReadStored(data, pt + 1, bits, w);
  }

  /** The length, count and tag of a header whose length takes `w` bytes. */
  lemma ReadHeader(data: seq<byte>, pt: nat, h: seq<byte>, l: nat, w: nat)
    requires w == 1 || w == 2 || w == 4
    requires |h| == w + 1 && h[1..] == Store(l, w) && l < Pow256(w) && Stands(data, pt, h)
    ensures pt < |data| && data[pt] == h[0] && ReadN(data, pt + 1, w) == Some(l)
  {
    assert h == [h[0]] + h[1..];
    StandsFirst(data, pt, h[0], h[1..]);
    ReadStored(data, pt + 1, l, w);
  }

  function Width(l: nat): nat {
    if l < 0x100 then 1 else if l < 0x1_0000 then 2 else 4
  }

  lemma HeaderWidth(l: nat)
    requires l < TWO_32
    ensures l < Pow256(Width(l))
    ensures l < 0x100 ==> Store(l, 1) == [l]
  {
    Pow256Values();
    assert Store(l / 256, 0) == [];
  }

  lemma ReadStr(data: seq<byte>, pt: nat, bytes: seq<byte>)
    requires |bytes| < TWO_32 && Stands(data, pt, PackStrHeader(|bytes|) + bytes)
    ensures Reads(data, pt, Str(bytes), PackStrHeader(|bytes|) + bytes)
  {
    hide Next, PackStrHeader;
    StandsSplit(data, pt, PackStrHeader(|bytes|), bytes);
    ReadStrHeader(data, pt, |bytes|);
  }

  lemma ReadStrHeader(data: seq<byte>, pt: nat, l: nat)
    requires l < TWO_32 && Stands(data, pt, PackStrHeader(l))
    ensures Next(data, pt) == ReadBody(data, pt + |PackStrHeader(l)|, l, STR)
  {
    var h := PackStrHeader(l);
    HeaderWidth(l);
    hide Stands, ReadBody;
    if l < 32 {
      StandsFirst(data, pt, h[0], []);
    } else {
      assert |h| == Width(l) + 1 && h[1..] == Store(l, Width(l));
      hide Store, Load, Pow256;
      ReadHeader(data, pt, h, l, Width(l));
    }
  }

  lemma ReadBin(data: seq<byte>, pt: nat, bytes: seq<byte>)
    requires |bytes| < TWO_32 && Stands(data, pt, PackBinHeader(|bytes|) + bytes)
    ensures Reads(data, pt, Bin(bytes), PackBinHeader(|bytes|) + bytes)
  {
    hide Next, PackBinHeader;
    StandsSplit(data, pt, PackBinHeader(|bytes|), bytes);
    ReadBinHeader(data, pt, |bytes|);
  }

  lemma ReadBinHeader(data: seq<byte>, pt: nat, l: nat)
    requires l < TWO_32 && Stands(data, pt, PackBinHeader(l))
    ensures Next(data, pt) == ReadBody(data, pt + |PackBinHeader(l)|, l, BIN)
  {
    var h := PackBinHeader(l);
    HeaderWidth(l);
    assert |h| == Width(l) + 1 && h[1..] == Store(l, Width(l));
    hide Stands, ReadBody, Store, Load, Pow256;
    ReadHeader(data, pt, h, l, Width(l));
  }

  function TypeByte(tp: int): byte
    requires -128 <= tp < 128
  {
    if tp < 0 then tp + 256 else tp
  }

  lemma ReadExtension(data: seq<byte>, pt: nat, tp: int, bytes: seq<byte>)
    requires -128 <= tp < 128 && |bytes| < TWO_32 && Stands(data, pt, PackExtHeader(|bytes|, TypeByte(tp)) + bytes)
    ensures Reads(data, pt, Ext(tp, bytes), PackExtHeader(|bytes|, TypeByte(tp)) + bytes)
  {
    hide Stands, Next, PackExtHeader, ReadExt, ExtFront, TypeByte;
    var t, l := TypeByte(tp), |bytes|;
    var h := ExtFront(l, t);
    assert h + [t] + bytes == h + ([t] + bytes);
    StandsSplit(data, pt, h, [t] + bytes);
    ReadExtHeader(data, pt, l, t, h);
    ReadExtBody(data, pt + |h|, tp, bytes);
  }

  /** The header without its last byte, the type. */
  function ExtFront(l: nat, t: byte): (h: seq<byte>)
    ensures PackExtHeader(l, t) == h + [t]
  {
    var h := PackExtHeader(l, t);
    h[..|h| - 1]
  }

  lemma ReadExtBody(data: seq<byte>, p: nat, tp: int, bytes: seq<byte>)
    requires -128 <= tp < 128 && Stands(data, p, [TypeByte(tp)] + bytes)
    ensures ReadExt(data, p, |bytes|) == Read(OExt(tp, bytes), p + 1 + |bytes|)
  {
    StandsFirst(data, p, TypeByte(tp), bytes);
  }

  lemma ReadExtHeader(data: seq<byte>, pt: nat, l: nat, t: byte, h: seq<byte>)
    requires l < TWO_32 && PackExtHeader(l, t) == h + [t] && Stands(data, pt, h)
    ensures Next(data, pt) == ReadExt(data, pt + |h|, l)
  {
    hide ReadExt;
    assert h == PackExtHeader(l, t)[..|h|];
    if l == 1 || l == 2 || l == 4 || l == 8 || l == 16 {
      StandsFirst(data, pt, h[0], []);
    } else {
      HeaderWidth(l);
      hide Store, Load, Pow256;
      assert |h| == Width(l) + 1 && h[1..] == Store(l, Width(l));
      ReadHeader(data, pt, h, l, Width(l));
    }
  }

  lemma ReadCount(data: seq<byte>, pt: nat, n: nat)
    requires n < TWO_32
    ensures Stands(data, pt, PackArrHeader(n)) ==> Next(data, pt) == Read(OArr(n), pt + |PackArrHeader(n)|)
    ensures Stands(data, pt, PackMapHeader(n)) ==> Next(data, pt) == Read(OMap(n), pt + |PackMapHeader(n)|)
  {
    HeaderWidth(n);
    var a, m := PackArrHeader(n), PackMapHeader(n);
    if Stands(data, pt, a) {
      if n < 16 { StandsFirst(data, pt, a[0], []); }
      else if n < 0x1_0000 { Pow256Values(); ReadHeader(data, pt, a, n, 2); }
      else { ReadHeader(data, pt, a, n, 4); }
    }
    if Stands(data, pt, m) {
      if n < 16 { StandsFirst(data, pt, m[0], []); }
      else if n < 0x1_0000 { Pow256Values(); ReadHeader(data, pt, m, n, 2); }
      else { ReadHeader(data, pt, m, n, 4); }
    }
  }

  /** Whatever surrounds it, a packed value decodes to itself and leaves what follows. */
  lemma {:induction false} RoundTrip(data: seq<byte>, pt: nat, v: Value)
    requires Packable(v) && Stands(data, pt, Pack(v))
    ensures Walk(data, pt) == Got(v, pt + |Pack(v)|)
    decreases v, 0
  {
    hide Stands, Next, PackStrHeader, PackBinHeader, PackExtHeader, PackArrHeader, PackMapHeader, WalkN;
    match v
    case Arr(items) =>
      var h := PackArrHeader(|items|);
      StandsSplit(data, pt, h, PackAll(items));
      ReadCount(data, pt, |items|);
      RoundTripAll(data, pt + |h|, items);
    case Map(flat) =>
      var h := PackMapHeader(|flat| / 2);
      StandsSplit(data, pt, h, PackAll(flat));
      ReadCount(data, pt, |flat| / 2);
      RoundTripAll(data, pt + |h|, flat);
    case _ => LeafTrip(data, pt, v);
  }

  lemma LeafTrip(data: seq<byte>, pt: nat, v: Value)
    requires Packable(v) && !v.Arr? && !v.Map? && Stands(data, pt, Pack(v))
    ensures Walk(data, pt) == Got(v, pt + |Pack(v)|)
  {
    hide Stands, Next, PackStrHeader, PackBinHeader, PackExtHeader;
    assert Reads(data, pt, v, Pack(v)) by {
      match v
      case Nil => ReadTag(data, pt, v);
      case Bool(b) => ReadTag(data, pt, v);
      case Int(i) => if i < 0 { ReadNegative(data, pt, i); } else { ReadUnsigned(data, pt, i); }
      case F32(bits) => Pow256Values(); ReadFloat(data, pt, bits, 4);
      case F64(bits) => Pow256Values(); ReadFloat(data, pt, bits, 8);
      case Str(bytes) => ReadStr(data, pt, bytes);
      case Bin(bytes) => ReadBin(data, pt, bytes);
      case Ext(tp, bytes) => ReadExtension(data, pt, tp, bytes);
    }
  }

  lemma ReadTag(data: seq<byte>, pt: nat, v: Value)
    requires (v.Nil? || v.Bool?) && Stands(data, pt, Pack(v))
    ensures Reads(data, pt, v, Pack(v))
  {
    StandsFirst(data, pt, Pack(v)[0], []);
  }

  lemma WalkStep(data: seq<byte>, pt: nat, v: Value, p: nat, vs: seq<Value>, e: nat)
    requires pt <= |data| && Walk(data, pt) == Got(v, p) && WalkN(data, p, |vs|) == Got(vs, e)
    ensures WalkN(data, pt, |vs| + 1) == Got([v] + vs, e)
  {
  }

  lemma {:induction false} RoundTripAll(data: seq<byte>, pt: nat, vs: seq<Value>)
    requires (forall x | x in vs :: Packable(x)) && Stands(data, pt, PackAll(vs))
    ensures pt <= |data| && WalkN(data, pt, |vs|) == Got(vs, pt + |PackAll(vs)|)
    decreases vs, 1
  {
    assert pt <= |data|;
    if vs != [] {
      hide Stands, Walk, WalkN, Pack, Packable;
      var v, rest := vs[0], vs[1..];
      assert vs == [v] + rest;
      var s, t := Pack(v), PackAll(rest);
      StandsSplit(data, pt, s, t);
      RoundTrip(data, pt, v);
      RoundTripAll(data, pt + |s|, rest);
      WalkStep(data, pt, v, pt + |s|, rest, pt + |s| + |t|);
    }
  }
}
