/** The UTF-8 codec of the JavaScript client, on UTF-16 code units. */
module JsUtf8 {
  import opened Bytes

  type unit = x: int | 0 <= x < 0x1_0000

  // ---- encoding ----

  predicate High(u: unit) { 0xd800 <= u <= 0xdbff }

  predicate Low(u: unit) { 0xdc00 <= u <= 0xdfff }

  /** A high surrogate with a low one behind it. */
  predicate PairAt(s: seq<unit>, pos: nat) {
    pos + 1 < |s| && High(s[pos]) && Low(s[pos + 1])
  }

  /** The value that starts at `pos`; an unpaired surrogate stands for itself. */
  function ValueAt(s: seq<unit>, pos: nat): (v: nat)
    requires pos < |s|
    ensures v < 0x11_0000 && (v >= 0x1_0000 <==> PairAt(s, pos))
  {
    if PairAt(s, pos) then (s[pos] as int - 0xd800) * 0x400 + (s[pos + 1] - 0xdc00) + 0x1_0000 else s[pos]
  }

  function Taken(s: seq<unit>, pos: nat): (n: nat)
    requires pos < |s|
    ensures 0 < n <= |s| - pos
  {
    if PairAt(s, pos) then 2 else 1
  }

  function Size(v: nat): nat {
    if v < 0x80 then 1 else if v < 0x800 then 2 else if v < 0x1_0000 then 3 else 4
  }

  function EncodeOne(v: nat): (r: seq<byte>)
    requires v < 0x11_0000
    ensures |r| == Size(v)
  {
    if v < 0x80 then [v]
    else if v < 0x800 then [0xc0 + v / 0x40, 0x80 + v % 0x40]
    else if v < 0x1_0000 then [0xe0 + v / 0x1000, 0x80 + v / 0x40 % 0x40, 0x80 + v % 0x40]
    else [0xf0 + v / 0x4_0000, 0x80 + v / 0x1000 % 0x40, 0x80 + v / 0x40 % 0x40, 0x80 + v % 0x40]
  }

  function Encode(s: seq<unit>, pos: nat): seq<byte>
    requires pos <= |s|
    decreases |s| - pos
  {
    if pos == |s| then [] else EncodeOne(ValueAt(s, pos)) + Encode(s, pos + Taken(s, pos))
  }

  /** `utf8Count` */
  method Count(s: seq<unit>) returns (n: nat)
    ensures n == |Encode(s, 0)|
  {
    n := 0;
    var pos := 0;
    while pos < |s|
      invariant 0 <= pos <= |s|
      invariant n + |Encode(s, pos)| == |Encode(s, 0)|
    {
      var value: nat := s[pos];
      var size := 1;
      if value < 0x80 {
      } else if value < 0x800 {
        size := 2;
      } else {
        if High(value) && pos + 1 < |s| && Low(s[pos + 1]) {
          value := (value - 0xd800) * 0x400 + (s[pos + 1] - 0xdc00) + 0x1_0000;
        }
        size := if value < 0x1_0000 then 3 else 4;
      }
      pos := pos + if value >= 0x1_0000 then 2 else 1;
      n := n + size;
    }
  }

  /** The first byte of a value of several bytes. */
  function Lead(v: nat): byte
    requires 0x80 <= v < 0x11_0000
  {
    if v < 0x800 then 0xc0 + v / 0x40 else if v < 0x1_0000 then 0xe0 + v / 0x1000 else 0xf0 + v / 0x4_0000
  }

  /** A further byte: the six bits of `v` from `unit` on. */
  function Further(v: nat, unit: nat): byte
    requires unit > 0
  {
    0x80 + v / unit % 0x40
  }

  lemma OneIs(v: nat)
    requires v < 0x11_0000
    ensures EncodeOne(v) ==
            if v < 0x80 then [v]
            else if v < 0x800 then [Lead(v), Further(v, 1)]
            else if v < 0x1_0000 then [Lead(v), Further(v, 0x40), Further(v, 1)]
            else [Lead(v), Further(v, 0x1000), Further(v, 0x40), Further(v, 1)]
  {
  }

  /** The bytes of one value, written from `offset` on. */
  method PutOne(output: array<byte>, offset: nat, value: nat) returns (after: nat)
    requires value < 0x11_0000 && offset + Size(value) <= output.Length
    modifies output
    ensures after == offset + Size(value)
    ensures output[..] == old(output[..offset]) + EncodeOne(value) + old(output[after..])
  {
    hide EncodeOne, Lead, Further;
    OneIs(value);
    after := offset;
    if value < 0x80 {
      output[after] := value;
    } else {
      output[after] := Lead(value);
      if value < 0x800 {
        after := after + 1;
      } else if value < 0x1_0000 {
        output[after + 1] := Further(value, 0x40);
        after := after + 2;
      } else {
        output[after + 1] := Further(value, 0x1000);
        output[after + 2] := Further(value, 0x40);
        after := after + 3;
      }
      output[after] := Further(value, 1);
    }
    after := after + 1;
  }

  /** `utf8EncodeJs` */
  method EncodeInto(s: seq<unit>, output: array<byte>, outputOffset: nat)
    requires outputOffset + |Encode(s, 0)| <= output.Length
    modifies output
    ensures output[..] == old(output[..outputOffset]) + Encode(s, 0) + old(output[outputOffset + |Encode(s, 0)|..])
  {
    hide Encode, EncodeOne;
    var offset, pos := outputOffset, 0;
    ghost var all, before := Encode(s, 0), output[..];
    ghost var done: seq<byte> := [];
    while pos < |s|
      invariant 0 <= pos <= |s| && offset == outputOffset + |done|
      invariant all == done + Encode(s, pos)
      invariant output[..] == before[..outputOffset] + done + before[offset..]
    {
      ghost var one, rest := EncodeOne(ValueAt(s, pos)), Encode(s, pos + Taken(s, pos));
      EncodeNext(s, pos);
      var value: nat := s[pos];
      if High(value) && pos + 1 < |s| && Low(s[pos + 1]) {
        value := (value - 0xd800) * 0x400 + (s[pos + 1] - 0xdc00) + 0x1_0000;
        pos := pos + 1;
      }
      pos := pos + 1;
      assert done + (one + rest) == done + one + rest;
      Written(before, outputOffset, done, one);
      offset := PutOne(output, offset, value);
      done := done + one;
    }
    EncodeEnd(s);
    assert all == done;
  }

  lemma EncodeNext(s: seq<unit>, pos: nat)
    requires pos < |s|
    ensures Encode(s, pos) == EncodeOne(ValueAt(s, pos)) + Encode(s, pos + Taken(s, pos))
  {
  }

  lemma EncodeEnd(s: seq<unit>)
    ensures Encode(s, |s|) == []
  {
  }

  /** More bytes over what stands behind those already written from `at` on. */
  lemma Written(before: seq<byte>, at: nat, done: seq<byte>, one: seq<byte>)
    requires at + |done| + |one| <= |before|
    ensures
      var now, mid, end := before[..at] + done + before[at + |done|..], at + |done|, at + |done| + |one|;
      now[..mid] + one + now[end..] == before[..at] + (done + one) + before[end..]
  {
  }

  // ---- decoding ----

  /** How far the decoder goes on a first byte. */
  function Span(b: byte): (n: nat)
    ensures n > 0
  {
    if b < 0xc0 then 1 else if b < 0xe0 then 2 else if b < 0xf0 then 3 else if b < 0xf8 then 4 else 1
  }

  /** The low six bits of a byte; beyond the buffer JavaScript reads `undefined`, which masks to 0. */
  function Six(bytes: seq<byte>, i: nat): (n: nat)
    ensures n < 0x40
  {
    if i < |bytes| then bytes[i] % 0x40 else 0
  }

  /** The code units of a first byte and the low bits of the bytes behind it. */
  function Combine(b: byte, x: nat, y: nat, z: nat): seq<unit>
    requires x < 0x40 && y < 0x40 && z < 0x40
  {
    if b < 0xc0 || b >= 0xf8 then [b]
    else if b < 0xe0 then [(b - 0xc0) * 0x40 + x]
    else if b < 0xf0 then [(b - 0xe0) * 0x1000 + x * 0x40 + y]
    else Pair((b as int - 0xf0) * 0x4_0000 + x * 0x1000 + y * 0x40 + z)
  }

  /** The code units of a value of four bytes. */
  function Pair(v: nat): seq<unit>
    requires v < 0x20_0000
  {
    if v > 0xffff then [0xd800 + (v - 0x1_0000) / 0x400 % 0x400, 0xdc00 + v % 0x400] else [v]
  }

  function UnitsAt(bytes: seq<byte>, i: nat): seq<unit>
    requires i < |bytes|
  {
    Combine(bytes[i], Six(bytes, i + 1), Six(bytes, i + 2), Six(bytes, i + 3))
  }

  /** What is decoded from `i` up to `end`; the last sequence may reach behind `end`. */
  function Decode(bytes: seq<byte>, i: nat, end: nat): seq<unit>
    requires end <= |bytes|
    decreases end - i
  {
    if i >= end then [] else UnitsAt(bytes, i) + Decode(bytes, i + Span(bytes[i]), end)
  }

  const CHUNK_SIZE: nat := 4096

  /** `utf8DecodeJs` */
  method DecodeJs(bytes: seq<byte>, inputOffset: nat, byteLength: nat) returns (result: seq<unit>)
    requires inputOffset + byteLength <= |bytes|
    ensures result == Decode(bytes, inputOffset, inputOffset + byteLength)
  {
    var offset, end := inputOffset, inputOffset + byteLength;
    var units: seq<unit> := [];
    result := [];
    hide UnitsAt, Span;
    while offset < end
      invariant inputOffset <= offset
      invariant Decode(bytes, inputOffset, end) == result + units + Decode(bytes, offset, end)
      decreases end - offset
    {
      var more := UnitsAt(bytes, offset);
      ghost var rest := Decode(bytes, offset + Span(bytes[offset]), end);
      assert result + units + (more + rest) == result + (units + more) + rest;
      units := units + more;
      offset := offset + Span(bytes[offset]);
      if |units| >= CHUNK_SIZE {
        result := result + units;
        units := [];
      }
    }
    if |units| > 0 { result := result + units; }
  }
}
