/** Round trip, legality and locality of the JavaScript UTF-8 codec. */
module JsUtf8Theorems {
  import opened Bytes
  import opened Utf8Table
  import opened JsUtf8

  // ---- round trip ----

  /** The code units of a value. */
  function UnitsOf(v: nat): seq<unit>
    requires v < 0x11_0000
  {
    if v >= 0x1_0000 then [0xd800 + (v - 0x1_0000) / 0x400, 0xdc00 + v % 0x400] else [v]
  }

  lemma ValueUnits(s: seq<unit>, pos: nat)
    requires pos < |s|
    ensures s[pos..] == UnitsOf(ValueAt(s, pos)) + s[pos + Taken(s, pos)..]
  {
    if PairAt(s, pos) {
      var h, l := s[pos] as int - 0xd800, s[pos + 1] as int - 0xdc00;
      assert ValueAt(s, pos) == h * 0x400 + l + 0x1_0000;
      assert UnitsOf(ValueAt(s, pos)) == [0xd800 + h, 0xdc00 + l];
    }
  }

  lemma DecodeOne(bytes: seq<byte>, i: nat, v: nat)
    requires v < 0x11_0000 && Stands(bytes, i, EncodeOne(v))
    ensures Span(bytes[i]) == Size(v) && UnitsAt(bytes, i) == UnitsOf(v)
  {
    var e := EncodeOne(v);
    StandsIn(bytes, i, e);
    StandsAt(bytes, i, e, 0);
    if v >= 0x80 { StandsAt(bytes, i, e, 1); }
    if v >= 0x800 { StandsAt(bytes, i, e, 2); }
    if v >= 0x1_0000 { StandsAt(bytes, i, e, 3); }
    hide Stands, UnitsOf, Combine;
    var x, y, z := Six(bytes, i + 1), Six(bytes, i + 2), Six(bytes, i + 3);
    if v < 0x80 {
      CombineOne(v, x, y, z);
    } else if v < 0x800 {
      SixOf(v);
      CombineTwo(v, y, z);
    } else if v < 0x1_0000 {
      SixOf(v);
      SixOf(v / 0x40);
      CombineThree(v, z);
    } else {
      SixOf(v);
      SixOf(v / 0x40);
      SixOf(v / 0x1000);
      CombineFour(v);
    }
  }

  lemma SixOf(v: nat)
    ensures (0x80 + v % 0x40) % 0x40 == v % 0x40
  {
  }

  lemma CombineOne(v: nat, x: nat, y: nat, z: nat)
    requires v < 0x80 && x < 0x40 && y < 0x40 && z < 0x40
    ensures Combine(v, x, y, z) == UnitsOf(v)
  {
  }

  lemma CombineTwo(v: nat, y: nat, z: nat)
    requires v < 0x800 && y < 0x40 && z < 0x40
    ensures Combine(0xc0 + v / 0x40, v % 0x40, y, z) == UnitsOf(v)
  {
  }

  lemma CombineThree(v: nat, z: nat)
    requires v < 0x1_0000 && z < 0x40
    ensures Combine(0xe0 + v / 0x1000, v / 0x40 % 0x40, v % 0x40, z) == UnitsOf(v)
  {
    var q := v / 0x40;
    assert v == q * 0x40 + v % 0x40;
    assert q == q / 0x40 * 0x40 + q % 0x40;
    assert v / 0x1000 == q / 0x40;
  }

  lemma CombineFour(v: nat)
    requires 0x1_0000 <= v < 0x11_0000
    ensures Combine(0xf0 + v / 0x4_0000, v / 0x1000 % 0x40, v / 0x40 % 0x40, v % 0x40) == UnitsOf(v)
  {
    hide Pair, UnitsOf;
    FourParts(v);
    PairIsUnits(v);
  }

  lemma FourParts(v: nat)
    ensures v == v / 0x4_0000 * 0x4_0000 + v / 0x1000 % 0x40 * 0x1000 + v / 0x40 % 0x40 * 0x40 + v % 0x40
  {
    var q := v / 0x40;
    var r := q / 0x40;
    assert v == q * 0x40 + v % 0x40;
    assert q == r * 0x40 + q % 0x40;
    assert r == r / 0x40 * 0x40 + r % 0x40;
    assert v / 0x1000 == r && v / 0x4_0000 == r / 0x40;
  }

  lemma PairIsUnits(v: nat)
    requires 0x1_0000 <= v < 0x11_0000
    ensures Pair(v) == UnitsOf(v)
  {
    assert (v - 0x1_0000) / 0x400 < 0x400;
  }

  lemma DecodeFront(bytes: seq<byte>, i: nat, v: nat, end: nat)
    requires v < 0x11_0000 && Stands(bytes, i, EncodeOne(v)) && i + Size(v) <= end <= |bytes|
    ensures Decode(bytes, i, end) == UnitsOf(v) + Decode(bytes, i + Size(v), end)
  {
    hide EncodeOne, UnitsAt, UnitsOf, Span, Stands;
    DecodeOne(bytes, i, v);
  }

  /** Decoding what was encoded gives the text back, whatever stands around it. */
  lemma {:induction false} RoundTrip(s: seq<unit>, pos: nat, bytes: seq<byte>, i: nat)
    requires pos <= |s| && Stands(bytes, i, Encode(s, pos))
    ensures Decode(bytes, i, i + |Encode(s, pos)|) == s[pos..]
    decreases |s| - pos
  {
    hide EncodeOne, ValueAt, UnitsAt, UnitsOf, Span, Stands, Taken, Size, PairAt;
    StandsIn(bytes, i, Encode(s, pos));
    if pos < |s| {
      var v, next := ValueAt(s, pos), pos + Taken(s, pos);
      var one, rest := EncodeOne(v), Encode(s, next);
      assert Encode(s, pos) == one + rest;
      hide Encode, Decode;
      StandsSplit(bytes, i, one, rest);
      DecodeFront(bytes, i, v, i + |one| + |rest|);
      RoundTrip(s, next, bytes, i + |one|);
      ValueUnits(s, pos);
    }
  }

  // ---- legality ----

  /** Every surrogate is half of a pair. */
  predicate Paired(s: seq<unit>, pos: nat)
    requires pos <= |s|
    decreases |s| - pos
  {
    pos < |s| ==> !(0xd800 <= ValueAt(s, pos) <= 0xdfff) && Paired(s, pos + Taken(s, pos))
  }

  lemma OneIsRow(v: nat)
    requires v < 0x11_0000
    ensures Len(EncodeOne(v)[0]) == |EncodeOne(v)|
    ensures Row(EncodeOne(v)) <==> !(0xd800 <= v <= 0xdfff)
  {
  }

  lemma LegalFront(r: seq<byte>, rest: seq<byte>)
    requires r != [] && Len(r[0]) == |r|
    ensures Legal(r + rest) <==> Row(r) && Legal(rest)
  {
    var s := r + rest;
    assert s[..|r|] == r && s[|r|..] == rest;
    if Legal(s) {
      var n :| 0 < n <= |s| && Row(s[..n]) && Legal(s[n..]);
      RowShape(s[..n]);
      assert n == |r|;
    }
  }

  /** The bytes are legal UTF-8 exactly when the surrogates of the text are paired. */
  lemma {:induction false} EncodeLegal(s: seq<unit>, pos: nat)
    requires pos <= |s|
    ensures Legal(Encode(s, pos)) <==> Paired(s, pos)
    decreases |s| - pos
  {
    if pos < |s| {
      var v := ValueAt(s, pos);
      OneIsRow(v);
      hide EncodeOne, Row, ValueAt, Legal;
      LegalFront(EncodeOne(v), Encode(s, pos + Taken(s, pos)));
      EncodeLegal(s, pos + Taken(s, pos));
    }
  }

  // ---- locality ----

  /** No sequence of `bytes[i..end]`, as the decoder sees them, reaches behind `end`. */
  predicate Whole(bytes: seq<byte>, i: nat, end: nat)
    requires end <= |bytes|
    decreases end - i
  {
    i < end ==> i + Span(bytes[i]) <= end && Whole(bytes, i + Span(bytes[i]), end)
  }

  /** Units depend on the bytes of their own sequence only. */
  lemma SameUnits(a: seq<byte>, i: nat, b: seq<byte>, j: nat)
    requires i < |a| && j < |b| && a[i] == b[j]
    requires Span(b[j]) > 1 ==> Six(a, i + 1) == Six(b, j + 1)
    requires Span(b[j]) > 2 ==> Six(a, i + 2) == Six(b, j + 2)
    requires Span(b[j]) > 3 ==> Six(a, i + 3) == Six(b, j + 3)
    ensures UnitsAt(a, i) == UnitsAt(b, j)
  {
    hide Six;
  }

  lemma SameSix(bytes: seq<byte>, off: nat, end: nat, k: nat)
    requires off <= end <= |bytes|
    ensures k < end - off ==> Six(bytes[off..end], k) == Six(bytes, off + k)
  {
  }

  /** A whole slice decodes by itself: what surrounds it has no influence. */
  lemma {:induction false} WholeIsLocal(bytes: seq<byte>, off: nat, end: nat, slice: seq<byte>, i: nat)
    requires off <= end <= |bytes| && slice == bytes[off..end] && i <= |slice| && Whole(slice, i, |slice|)
    ensures Decode(bytes, off + i, end) == Decode(slice, i, |slice|)
    decreases |slice| - i
  {
    hide UnitsAt, Span, Six;
    if i < |slice| {
      var n := Span(slice[i]);
      assert slice[i] == bytes[off + i];
      assert Decode(bytes, off + i, end) == UnitsAt(bytes, off + i) + Decode(bytes, off + i + n, end);
      assert Decode(slice, i, |slice|) == UnitsAt(slice, i) + Decode(slice, i + n, |slice|);
      assert i + n <= |slice| && Whole(slice, i + n, |slice|);
      hide Decode, Whole;
      WholeIsLocal(bytes, off, end, slice, i + n);
      SameSix(bytes, off, end, i + 1);
      SameSix(bytes, off, end, i + 2);
      SameSix(bytes, off, end, i + 3);
      SameUnits(bytes, off + i, slice, i);
    }
  }

  /** Whether a slice is whole does not depend on what surrounds it. */
  lemma {:induction false} WholeSlice(bytes: seq<byte>, off: nat, end: nat, slice: seq<byte>, i: nat)
    requires off <= end <= |bytes| && slice == bytes[off..end] && i <= |slice|
    ensures Whole(bytes, off + i, end) <==> Whole(slice, i, |slice|)
    decreases |slice| - i
  {
    if i < |slice| && i + Span(slice[i]) <= |slice| { WholeSlice(bytes, off, end, slice, i + Span(slice[i])); }
  }

  /** Decoding inside a buffer and decoding from a place on are the same. */
  lemma UnitsBehind(bytes: seq<byte>, pos: nat, i: nat)
    requires pos + i < |bytes|
    ensures UnitsAt(bytes[pos..], i) == UnitsAt(bytes, pos + i)
  {
    SameUnits(bytes[pos..], i, bytes, pos + i);
  }

  lemma {:induction false} DecodeBehind(bytes: seq<byte>, pos: nat, i: nat, end: nat)
    requires pos <= |bytes| && end <= |bytes| - pos
    ensures Decode(bytes[pos..], i, end) == Decode(bytes, pos + i, pos + end)
    decreases end - i
  {
    hide UnitsAt, Span;
    if i < end {
      UnitsBehind(bytes, pos, i);
      DecodeBehind(bytes, pos, i + Span(bytes[pos..][i]), end);
    }
  }

  // ---- what is missing behind the end ----

  /** Where the last sequence of `bytes[i..end]` ends, as the decoder sees it. */
  function LastEnd(bytes: seq<byte>, i: nat, end: nat): (n: nat)
    requires end <= |bytes|
    ensures n >= end
    decreases end - i
  {
    if i >= end then i else LastEnd(bytes, i + Span(bytes[i]), end)
  }

  /** The bytes behind `end` that the last sequence takes have no bits to give. */
  predicate Quiet(bytes: seq<byte>, i: nat, end: nat)
    requires end <= |bytes|
  {
    forall j | end <= j < LastEnd(bytes, i, end) && j < |bytes| :: bytes[j] % 0x40 == 0
  }

  lemma {:induction false} WholeIsQuiet(bytes: seq<byte>, i: nat, end: nat)
    requires i <= end <= |bytes| && Whole(bytes, i, end)
    ensures LastEnd(bytes, i, end) == end && Quiet(bytes, i, end)
    decreases end - i
  {
    if i < end { WholeIsQuiet(bytes, i + Span(bytes[i]), end); }
  }

  lemma UnitsCut(bytes: seq<byte>, i: nat, k: nat)
    requires i < k <= |bytes|
    requires forall j | i < j < i + Span(bytes[i]) && k <= j < |bytes| :: bytes[j] % 0x40 == 0
    ensures UnitsAt(bytes[..k], i) == UnitsAt(bytes, i)
  {
    SameUnits(bytes[..k], i, bytes, i);
  }

  lemma QuietStep(bytes: seq<byte>, i: nat, end: nat, k: nat)
    requires i < end <= k <= |bytes| && Quiet(bytes, i, end)
    ensures Quiet(bytes, i + Span(bytes[i]), end) && UnitsAt(bytes[..k], i) == UnitsAt(bytes, i)
  {
    hide UnitsAt, Span;
    LastBehind(bytes, i + Span(bytes[i]), end);
    UnitsCut(bytes, i, k);
  }

  lemma {:induction false} CutDecode(bytes: seq<byte>, i: nat, end: nat, k: nat)
    requires end <= k <= |bytes| && Quiet(bytes, i, end)
    ensures Decode(bytes[..k], i, end) == Decode(bytes, i, end)
    decreases end - i
  {
    hide UnitsAt, Span, Quiet, LastEnd;
    if i < end {
      QuietStep(bytes, i, end, k);
      CutDecode(bytes, i + Span(bytes[i]), end, k);
    }
  }

  lemma LastBehind(bytes: seq<byte>, i: nat, end: nat)
    requires end <= |bytes|
    ensures LastEnd(bytes, i, end) >= i
    decreases end - i
  {
    hide Span;
    if i < end { LastBehind(bytes, i + Span(bytes[i]), end); }
  }

  /** The units tell the bits they are made of. */
  lemma UnitsTell(a: seq<byte>, b: seq<byte>, i: nat, t: nat)
    requires i < |a| && i < |b| && a[i] == b[i] && UnitsAt(a, i) == UnitsAt(b, i) && 0 < t < Span(a[i])
    ensures Six(a, i + t) == Six(b, i + t)
  {
    hide Six;
    CombineTells(a[i], Six(a, i + 1), Six(a, i + 2), Six(a, i + 3), Six(b, i + 1), Six(b, i + 2), Six(b, i + 3));
  }

  lemma CombineTells(b: byte, x: nat, y: nat, z: nat, p: nat, q: nat, r: nat)
    requires x < 0x40 && y < 0x40 && z < 0x40 && p < 0x40 && q < 0x40 && r < 0x40
    requires Combine(b, x, y, z) == Combine(b, p, q, r)
    ensures (Span(b) > 1 ==> x == p) && (Span(b) > 2 ==> y == q) && (Span(b) > 3 ==> z == r)
  {
    hide Pair;
    if 0xf0 <= b < 0xf8 {
      var base := (b as int - 0xf0) * 0x4_0000;
      PairTells(base + x * 0x1000 + y * 0x40 + z, base + p * 0x1000 + q * 0x40 + r);
    }
  }

  lemma PairTells(u: nat, v: nat)
    requires u < 0x20_0000 && v < 0x20_0000 && -0x4_0000 < u - v < 0x4_0000 && Pair(u) == Pair(v)
    ensures u == v
  {
    if u > 0xffff && v > 0xffff {
      assert Pair(u)[0] == Pair(v)[0] && Pair(u)[1] == Pair(v)[1];
      SameParts(u - 0x1_0000, v - 0x1_0000);
    }
  }

  lemma SameParts(u: nat, v: nat)
    requires u / 0x400 % 0x400 == v / 0x400 % 0x400 && (u + 0x1_0000) % 0x400 == (v + 0x1_0000) % 0x400
    requires -0x4_0000 < u - v < 0x4_0000
    ensures u == v
  {
    Divided(u);
    Divided(v);
    Divided(u / 0x400);
    Divided(v / 0x400);
    Shifted(u);
    Shifted(v);
    var p, q := u / 0x400, v / 0x400;
    SameLinear(u, v, p, q, p / 0x400, q / 0x400, u % 0x400, p % 0x400);
  }

  lemma Divided(u: nat)
    ensures u == u / 0x400 * 0x400 + u % 0x400 && u % 0x400 < 0x400
  {
  }

  lemma Shifted(u: nat)
    ensures (u + 0x1_0000) % 0x400 == u % 0x400
  {
  }

  lemma SameLinear(u: nat, v: nat, p: nat, q: nat, x: nat, y: nat, r: nat, s: nat)
    requires u == p * 0x400 + r && v == q * 0x400 + r && p == x * 0x400 + s && q == y * 0x400 + s
    requires -0x4_0000 < u - v < 0x4_0000
    ensures u == v
  {
    assert u - v == (x - y) * 0x10_0000;
  }

  lemma TailsDiffer(u: seq<unit>, x: seq<unit>, y: seq<unit>)
    requires x != y
    ensures u + x != u + y
  {
    assert (u + x)[|u|..] == x && (u + y)[|u|..] == y;
  }

  /** A last sequence that takes bits from behind the end. */
  lemma LastShows(bytes: seq<byte>, i: nat, end: nat, j: nat)
    requires i < end <= j < |bytes| && j < i + Span(bytes[i]) && bytes[j] % 0x40 != 0
    ensures Decode(bytes[..end], i, end) != Decode(bytes, i, end)
  {
    var a := bytes[..end];
    assert Six(a, j) == 0 && Six(bytes, j) != 0;
    if UnitsAt(a, i) == UnitsAt(bytes, i) { UnitsTell(a, bytes, i, j - i); }
    hide UnitsAt, Span;
    assert Decode(a, i, end) == UnitsAt(a, i) + [] == UnitsAt(a, i);
    assert Decode(bytes, i, end) == UnitsAt(bytes, i) + [] == UnitsAt(bytes, i);
  }

  lemma {:induction false} NotQuietShows(bytes: seq<byte>, i: nat, end: nat, j: nat)
    requires i <= end <= j < |bytes| && j < LastEnd(bytes, i, end) && bytes[j] % 0x40 != 0
    ensures Decode(bytes[..end], i, end) != Decode(bytes, i, end)
    decreases end - i
  {
    hide UnitsAt, Span;
    var a, n := bytes[..end], i + Span(bytes[i]);
    if n > end {
      LastShows(bytes, i, end, j);
    } else {
      UnitsCut(bytes, i, end);
      NotQuietShows(bytes, n, end, j);
      TailsDiffer(UnitsAt(a, i), Decode(a, n, end), Decode(bytes, n, end));
    }
  }

  lemma {:induction false} CutLast(b: seq<byte>, i: nat, end: nat, k: nat)
    requires end <= k <= |b|
    ensures LastEnd(b[..k], i, end) == LastEnd(b, i, end)
    decreases end - i
  {
    hide Span;
    if i < end { CutLast(b, i + Span(b[i]), end, k); }
  }

  lemma {:induction false} NotWholeReaches(s: seq<byte>, i: nat)
    requires i <= |s| && !Whole(s, i, |s|)
    ensures LastEnd(s, i, |s|) > |s|
    decreases |s| - i
  {
    if i + Span(s[i]) <= |s| { NotWholeReaches(s, i + Span(s[i])); }
  }

  /** Exactly when decoding a string does not depend on the bytes behind it. */
  lemma LocalExactlyWhenWhole(s: seq<byte>)
    ensures Whole(s, 0, |s|) <==> forall t: seq<byte> :: Decode(s + t, 0, |s|) == Decode(s, 0, |s|)
  {
    hide Decode, Whole, LastEnd;
    if Whole(s, 0, |s|) {
      forall t: seq<byte> ensures Decode(s + t, 0, |s|) == Decode(s, 0, |s|) {
        assert (s + t)[0..|s|] == s;
        WholeIsLocal(s + t, 0, |s|, s, 0);
      }
    } else {
      var all := s + [0x81];
      assert all[..|s|] == s;
      NotWholeReaches(s, 0);
      CutLast(all, 0, |s|, |s|);
      NotQuietShows(all, 0, |s|, |s|);
    }
  }

  /** Without the last byte it needs, the last unit of a sequence has no low bits. */
  lemma {:induction false} RaggedEnd(bytes: seq<byte>, i: nat, end: nat)
    requires i <= end <= |bytes| < LastEnd(bytes, i, end)
    ensures var d := Decode(bytes, i, end); d != [] && d[|d| - 1] % 0x40 == 0
    decreases end - i
  {
    hide UnitsAt, Span;
    var n := i + Span(bytes[i]);
    if n > end {
      LastUnit(bytes, i);
      assert UnitsAt(bytes, i) + [] == UnitsAt(bytes, i);
    } else {
      RaggedEnd(bytes, n, end);
      LastOf(UnitsAt(bytes, i), Decode(bytes, n, end));
    }
  }

  /** With all the bytes it needs, a string has its text. */
  lemma {:induction false} NothingMissing(bytes: seq<byte>, i: nat, end: nat, k: nat)
    requires end <= k <= |bytes| && LastEnd(bytes, i, end) <= k
    ensures Decode(bytes[..k], i, end) == Decode(bytes, i, end)
    decreases end - i
  {
    hide UnitsAt, Span;
    if i < end {
      var n := i + Span(bytes[i]);
      LastBehind(bytes, n, end);
      UnitsCut(bytes, i, k);
      NothingMissing(bytes, n, end, k);
    }
  }

  lemma LastOf(a: seq<unit>, b: seq<unit>)
    requires b != []
    ensures (a + b)[|a + b| - 1] == b[|b| - 1]
  {
  }

  lemma LastUnit(bytes: seq<byte>, i: nat)
    requires i < |bytes| < i + Span(bytes[i])
    ensures var u := UnitsAt(bytes, i); u != [] && u[|u| - 1] % 0x40 == 0
  {
    var b, x, y, z := bytes[i], Six(bytes, i + 1), Six(bytes, i + 2), Six(bytes, i + 3);
    assert (Span(b) == 2 ==> x == 0) && (Span(b) == 3 ==> y == 0) && (Span(b) == 4 ==> z == 0);
    hide Six;
    if Span(b) == 4 { LastOfFour((bytes[i] as int - 0xf0) * 0x1000 + x * 0x40 + y); }
  }

  lemma LastOfFour(q: nat)
    ensures q * 0x40 % 0x40 == 0 && (0xdc00 + q * 0x40 % 0x400) % 0x40 == 0
  {
    var a, b := q / 0x10, q % 0x10;
    assert q * 0x40 == a * 0x400 + b * 0x40;
    Remainder(q * 0x40, a, b * 0x40);
    Multiple(q);
    Multiple(0x370 + b);
  }

  lemma Remainder(x: nat, a: nat, r: nat)
    requires x == a * 0x400 + r && r < 0x400
    ensures x % 0x400 == r
  {
  }

  lemma Multiple(q: nat)
    ensures q * 0x40 % 0x40 == 0
  {
  }

  /** Exactly when the bytes behind the end of a string do not show in its text. */
  lemma CutExactly(bytes: seq<byte>, i: nat, end: nat)
    requires i <= end <= |bytes|
    ensures Decode(bytes[..end], i, end) == Decode(bytes, i, end) <==> Quiet(bytes, i, end)
  {
    if Quiet(bytes, i, end) {
      CutDecode(bytes, i, end, end);
    } else {
      var j :| end <= j < LastEnd(bytes, i, end) && j < |bytes| && bytes[j] % 0x40 != 0;
      NotQuietShows(bytes, i, end, j);
    }
  }

  /** Legal UTF-8 is whole. */
  lemma {:induction false} LegalIsWhole(s: seq<byte>, i: nat)
    requires i <= |s| && Legal(s[i..])
    ensures Whole(s, i, |s|)
    decreases |s| - i
  {
    hide Legal, Span;
    if i < |s| {
      LegalStep(s[i..]);
      var n := Span(s[i]);
      assert s[i..][0] == s[i] && s[i..][n..] == s[i + n..];
      LegalIsWhole(s, i + n);
    }
  }

  lemma LegalStep(t: seq<byte>)
    requires t != [] && Legal(t)
    ensures Span(t[0]) <= |t| && Legal(t[Span(t[0])..])
  {
    var n :| 0 < n <= |t| && Row(t[..n]) && Legal(t[n..]);
    hide Legal;
    RowShape(t[..n]);
  }
}
