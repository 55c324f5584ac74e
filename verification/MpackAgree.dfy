/** The walk over a whole object with `mp_next`, and its agreement with `mp_skip`. */
module MpackAgree {
  import opened Bytes
  import opened Msgpack
  import opened Mpack

  datatype Walked<T> = Got(v: T, pt: nat) | Broken(tp: Tp)

  function Leaf(o: Obj): Value
    requires !o.Failed? && !o.OArr? && !o.OMap?
  {
    match o
    case OU64(u) => Int(u)
    case OI64(i) => Int(i)
    case OF32(bits) => Value.F32(bits)
    case OF64(bits) => Value.F64(bits)
    case OStr(bytes) => Str(bytes)
    case OBin(bytes) => Bin(bytes)
    case OExt(tp, bytes) => Ext(tp, bytes)
    case OBool(b) => Bool(b)
    case ONil => Nil
  }

  /** Reads one object and everything in it by calling `mp_next` once per header. */
  function Walk(data: seq<byte>, pt: nat): (r: Walked<Value>)
    ensures r.Got? ==> pt < r.pt <= |data|
    ensures r.Broken? ==> !Positive(r.tp)
    decreases Rest(data, pt), 0
  {
    var (o, p) := (Next(data, pt).o, Next(data, pt).pt);
    match o
    case Failed(tp) => Broken(tp)
    case OArr(n) => (match WalkN(data, p, n) case Broken(tp) => Broken(tp) case Got(vs, e) => Got(Arr(vs), e))
    case OMap(n) => (match WalkN(data, p, 2 * n) case Broken(tp) => Broken(tp) case Got(vs, e) => Got(Map(vs), e))
    case _ => Got(Leaf(o), p)
  }

  /** `n` objects in a row; running out of input between two of them is not the end but a cut. */
  function WalkN(data: seq<byte>, pt: nat, n: nat): (r: Walked<seq<Value>>)
    requires pt <= |data|
    ensures r.Got? ==> |r.v| == n && pt + n <= r.pt <= |data|
    ensures r.Broken? ==> !Positive(r.tp) && !r.tp.END?
    decreases Rest(data, pt), 1, n
  {
    if n == 0 then Got([], pt)
    else
      match Walk(data, pt)
      case Broken(tp) => Broken(if tp.END? then INCOMPLETE else tp)
      case Got(v, p) =>
        match WalkN(data, p, n - 1)
        case Broken(tp) => Broken(tp)
        case Got(vs, e) => Got([v] + vs, e)
  }

  lemma NothingToWalk(data: seq<byte>, pt: nat)
    requires pt <= |data|
    ensures WalkN(data, pt, 0) == Got([], pt)
  {
  }

  /** A row of objects is its first and the others. */
  lemma WalkedFirst(data: seq<byte>, pt: nat, vs: seq<Value>)
    requires vs != [] && pt <= |data| && WalkN(data, pt, |vs|).Got? && WalkN(data, pt, |vs|).v == vs
    ensures
      var w := Walk(data, pt);
      w.Got? && w.v == vs[0] && WalkN(data, w.pt, |vs| - 1) == Got(vs[1..], WalkN(data, pt, |vs|).pt)
  {
    hide Walk;
  }

  // ---- head bytes, as the proofs group them ----

  /** How many bytes of length or count follow the head byte. */
  function SizeWidth(t: byte): nat {
    if t == 0xc4 || t == 0xc7 || t == 0xd9 then 1
    else if t == 0xc5 || t == 0xc8 || t == 0xda || t == 0xdc || t == 0xde then 2
    else 4
  }

  function SizedType(t: byte): Tp {
    if t <= 0xc6 then BIN else if t <= 0xc9 then EXT else if t <= 0xdb then STR else if t <= 0xdd then ARR else MAP
  }

  /** How many bytes of a number follow the head byte. */
  function NumberWidth(t: byte): nat {
    if t == 0xcc || t == 0xd0 then 1 else if t == 0xcd || t == 0xd1 then 2
    else if t == 0xca || t == 0xce || t == 0xd2 then 4 else 8
  }

  function NumberType(t: byte): Tp { if t <= 0xcb then Tp.F64 else if t <= 0xcf then U64 else I64 }

  // ---- one header ----

  /** The header at `pt` asks for more than 32 bits can count: a map 32 of 2^31 pairs or an ext 32 of 2^32 - 1 bytes. */
  predicate Wraps(data: seq<byte>, pt: nat) {
    && pt + 5 <= |data|
    && var n := Load(data[pt + 1..pt + 5]);
    (data[pt] == 0xdf && n >= TWO_32 / 2) || (data[pt] == 0xc9 && n == TWO_32 - 1)
  }

  /** What a plan does when it asks for no nested object. */
  function Carried(data: seq<byte>, p: Plan, pt: nat): Skipped
    requires !p.Objects?
  {
    match p
    case Done(tp) => Skipped(tp, pt)
    case Bad(tp) => Skipped(tp, pt)
    case Chars(n, tp, from) => Skipped(if from + n > |data| then INCOMPLETE else tp, from + n)
  }

  /** `r` is what `mp_next` reads where `mp_skip` makes plan `p`. */
  predicate Match(data: seq<byte>, pt: nat, r: Read, p: Plan) {
    if r.o.Failed? then !p.Objects? && Carried(data, p, pt).tp == r.o.tp
    else if r.o.OArr? then p == Objects(r.o.n, ARR, r.pt)
    else if r.o.OMap? then p == Objects(2 * r.o.n, MAP, r.pt)
    else !p.Objects? && Carried(data, p, pt) == Skipped(TypeOf(r.o), r.pt)
  }

  lemma ExtMatch(data: seq<byte>, pt: nat, p: nat, n: nat)
    requires pt <= p <= |data|
    ensures Match(data, pt, ReadExt(data, p, n), Chars(n + 1, EXT, p))
  {
  }

  lemma BodyMatch(data: seq<byte>, pt: nat, p: nat, n: nat, tp: Tp)
    requires pt <= p <= |data| && (tp.STR? || tp.BIN?)
    ensures Match(data, pt, ReadBody(data, p, n, tp), Chars(n, tp, p))
  {
  }

  lemma SizedMatch(data: seq<byte>, pt: nat, w: nat, tp: Tp)
    requires w > 0 && (tp.STR? || tp.BIN? || tp.EXT? || tp.ARR? || tp.MAP?)
    requires pt <= |data|
    requires pt + w <= |data| ==>
      Load(data[pt..pt + w]) < if tp.MAP? then TWO_32 / 2 else if tp.EXT? then TWO_32 - 1 else TWO_32
    ensures Match(data, pt, ReadSized(data, pt, w, tp), PlanSized(data, pt, w, tp))
  {
    if pt + w <= |data| {
      var n := Load(data[pt..pt + w]);
      assert ReadN(data, pt, w) == Some(n);
      hide Load, ReadExt, ReadBody, ReadN;
      if tp.EXT? {
        NoWrap(n + 1);
        ExtMatch(data, pt, pt + w, n);
      } else if tp.MAP? {
        NoWrap(n * 2);
      } else if !tp.ARR? {
        BodyMatch(data, pt, pt + w, n, tp);
      }
    }
  }

  lemma NoWrap(n: nat)
    requires n < TWO_32
    ensures n % TWO_32 == n
  {
  }

  lemma ScalarMatch(data: seq<byte>, pt: nat, w: nat, tp: Tp)
    requires w > 0 && (tp.F64? || tp.U64? || tp.I64?)
    requires pt <= |data|
    ensures Match(data, pt, ReadScalar(data, pt, w, tp), Chars(w, tp, pt))
  {
  }

  lemma SizedMatchAt(data: seq<byte>, pt: nat, w: nat, tp: Tp)
    requires w == 1 || w == 2 || w == 4
    requires tp.STR? || tp.BIN? || tp.EXT? || tp.ARR? || tp.MAP?
    requires pt < |data|
    requires w == 4 && tp.MAP? ==> data[pt] == 0xdf
    requires w == 4 && tp.EXT? ==> data[pt] == 0xc9
    requires !Wraps(data, pt)
    ensures Match(data, pt + 1, ReadSized(data, pt + 1, w, tp), PlanSized(data, pt + 1, w, tp))
  {
    if pt + 1 + w <= |data| {
      LoadRange(data[pt + 1..pt + 1 + w]);
      Pow256Values();
    }
    SizedMatch(data, pt + 1, w, tp);
  }

  /** One header read by both decoders. */
  lemma HeaderMatch(data: seq<byte>, pt: nat)
    requires pt < |data| && !Wraps(data, pt)
    ensures Match(data, pt + 1, NextAfter(data, data[pt], pt + 1), PlanOf(data, data[pt], pt + 1))
  {
    hide ReadSized, PlanSized, ReadScalar, Wraps, ReadN;
    var t := data[pt];
    if t < 0xc4 || t >= 0xe0 {
    } else if t < 0xca || t > 0xd8 {
      SizedMatchAt(data, pt, SizeWidth(t), SizedType(t));
    } else if t < 0xd4 {
      ScalarMatch(data, pt + 1, NumberWidth(t), NumberType(t));
    }
  }

  // ---- whole objects ----

  /** No header on the way of `mp_skip` wraps. */
  predicate Clean(data: seq<byte>, pt: nat)
    decreases Rest(data, pt), 0
  {
    pt < |data| ==>
      && !Wraps(data, pt)
      && var p := PlanOf(data, data[pt], pt + 1);
      p.Objects? ==> CleanN(data, p.from, p.n)
  }

  predicate CleanN(data: seq<byte>, pt: nat, n: nat)
    requires pt <= |data|
    decreases Rest(data, pt), 1, n
  {
    n > 0 ==>
      && Clean(data, pt)
      && var r := Skip(data, pt);
      Positive(r.tp) ==> CleanN(data, r.pt, n - 1)
  }

  lemma {:induction false} DecodersAgree(data: seq<byte>, pt: nat)
    requires Clean(data, pt)
    ensures
      match Walk(data, pt)
      case Broken(tp) => Skip(data, pt).tp == tp
      case Got(_, e) => Skip(data, pt) == Skipped(TypeOf(Next(data, pt).o), e) && Positive(Skip(data, pt).tp)
    decreases Rest(data, pt), 0
  {
    if pt < |data| {
      hide PlanOf, NextAfter, Wraps, WalkN, SkipN, CleanN, TypeOf;
      HeaderMatch(data, pt);
      var p, o := PlanOf(data, data[pt], pt + 1), Next(data, pt).o;
      hide Next;
      if p.Objects? { DecodersAgreeN(data, p.from, p.n); }
      if !o.Failed? { TypesArePositive(o); }
    }
  }

  lemma TypesArePositive(o: Obj)
    requires !o.Failed?
    ensures Positive(TypeOf(o)) && (o.OArr? ==> TypeOf(o).ARR?) && (o.OMap? ==> TypeOf(o).MAP?)
  {
  }

  lemma {:induction false} DecodersAgreeN(data: seq<byte>, pt: nat, n: nat)
    requires pt <= |data| && CleanN(data, pt, n)
    ensures
      match WalkN(data, pt, n)
      case Broken(tp) => SkipN(data, pt, n).tp == tp
      case Got(_, e) => SkipN(data, pt, n) == Skipped(NIL, e)
    decreases Rest(data, pt), 1, n
  {
    hide Skip, Walk, Clean, Next;
    if n > 0 {
      DecodersAgree(data, pt);
      var r := Skip(data, pt);
      if Positive(r.tp) { DecodersAgreeN(data, r.pt, n - 1); }
    }
  }

  /** In less than 2^32 bytes no object that is really there has a header that wraps. */
  lemma {:induction false} WalkedIsClean(data: seq<byte>, pt: nat)
    requires |data| < TWO_32 && Walk(data, pt).Got?
    ensures Clean(data, pt)
    decreases Rest(data, pt), 0
  {
    if Wraps(data, pt) { WrappingBreaks(data, pt); }
    HeaderMatch(data, pt);
    hide PlanOf, NextAfter, Wraps;
    var p := PlanOf(data, data[pt], pt + 1);
    if p.Objects? { WalkedIsCleanN(data, p.from, p.n); }
  }

  lemma WrappingBreaks(data: seq<byte>, pt: nat)
    requires |data| < TWO_32 && Wraps(data, pt)
    ensures Walk(data, pt).Broken?
  {
    hide Load, WalkN;
    var n := Load(data[pt + 1..pt + 5]);
    if data[pt] == 0xdf {
      assert Next(data, pt) == Read(OMap(n), pt + 5);
    } else {
      assert Next(data, pt) == ReadExt(data, pt + 5, n);
    }
  }

  lemma {:induction false} WalkedIsCleanN(data: seq<byte>, pt: nat, n: nat)
    requires |data| < TWO_32 && pt <= |data| && WalkN(data, pt, n).Got?
    ensures CleanN(data, pt, n)
    decreases Rest(data, pt), 1, n
  {
    hide Skip, Walk, Clean, Next;
    if n > 0 {
      WalkedIsClean(data, pt);
      DecodersAgree(data, pt);
      WalkedIsCleanN(data, Skip(data, pt).pt, n - 1);
    }
  }

  /** Exactly when `mp_skip` is right to accept. */
  lemma SkipAccepts(data: seq<byte>, pt: nat)
    requires |data| < TWO_32
    ensures Walk(data, pt).Got? <==> Positive(Skip(data, pt).tp) && Clean(data, pt)
  {
    hide Skip, Walk, Clean, Next;
    if Walk(data, pt).Got? { WalkedIsClean(data, pt); }
    if Clean(data, pt) { DecodersAgree(data, pt); }
  }

  /** Five bytes that announce 2^31 pairs: `mp_skip` multiplies the count to zero and accepts. */
  lemma WrappedMapAccepted()
    ensures var data := [0xdf, 0x80, 0, 0, 0];
      Skip(data, 0) == Skipped(MAP, 5) && Walk(data, 0) == Broken(INCOMPLETE)
  {
    var data: seq<byte> := [0xdf, 0x80, 0, 0, 0];
    LoadOfFour(data[1..5]);
    assert data[1..5] == [0x80, 0, 0, 0];
    assert PlanOf(data, data[0], 1) == Objects(0, MAP, 5);
    assert Next(data, 0) == Read(OMap(TWO_32 / 2), 5);
    assert Walk(data, 5) == Broken(END);
    assert WalkN(data, 5, TWO_32) == Broken(INCOMPLETE);
  }

  /** Five bytes that announce an extension of 2^32 - 1 bytes: with its type byte that is nothing to skip. */
  lemma WrappedExtAccepted()
    ensures
      var data := [0xc9, 0xff, 0xff, 0xff, 0xff];
      Skip(data, 0) == Skipped(EXT, 5) && Walk(data, 0) == Broken(INCOMPLETE)
  {
    var data: seq<byte> := [0xc9, 0xff, 0xff, 0xff, 0xff];
    LoadOfFour(data[1..5]);
    assert data[1..5] == [0xff, 0xff, 0xff, 0xff];
    assert Load(data[1..5]) == TWO_32 - 1;
    assert PlanOf(data, data[0], 1) == Chars(0, EXT, 5);
    assert Next(data, 0).o == Failed(INCOMPLETE);
  }

  lemma LoadOfFour(s: seq<byte>)
    requires |s| == 4
    ensures Load(s) == s[0] as int * 0x100_0000 + s[1] as int * 0x1_0000 + s[2] as int * 0x100 + s[3]
  {
    var t, u, v := s[..3], s[..2], s[..1];
    assert t[..2] == u && u[..1] == v && v[..0] == [];
    assert Load(v) == s[0];
    assert Load(u) == Load(v) * 256 + s[1];
    assert Load(t) == Load(u) * 256 + s[2];
  }

  // ---- truncation ----

  /** Every strict prefix of a complete object is reported as cut off; bytes behind the object do not matter. */
  lemma {:induction false} SkipCut(data: seq<byte>, pt: nat, k: nat)
    requires pt <= k <= |data| && Positive(Skip(data, pt).tp)
    ensures Skip(data, pt).pt <= k ==> Skip(data[..k], pt) == Skip(data, pt)
    ensures k < Skip(data, pt).pt ==> Skip(data[..k], pt).tp == if k == pt then END else INCOMPLETE
    decreases Rest(data, pt), 0
  {
    if pt < k {
      hide PlanOf;
      PlanCut(data, pt, k);
      var p := PlanOf(data, data[pt], pt + 1);
      if p.Objects? && p.from <= k { SkipCutN(data, p.from, p.n, k); }
    }
  }

  lemma PlanCut(data: seq<byte>, pt: nat, k: nat)
    requires pt < k <= |data|
    ensures
      var p, q := PlanOf(data, data[pt], pt + 1), PlanOf(data[..k], data[pt], pt + 1);
      if (p.Chars? || p.Objects?) && k < p.from then q == Bad(INCOMPLETE) else p.Bad? || p == q
  {
    hide PlanSized;
    var t := data[pt];
    if 0xc4 <= t < 0xca || 0xd8 < t < 0xe0 {
      PlanSizedCut(data, pt + 1, SizeWidth(t), SizedType(t), k);
    }
  }

  lemma PlanSizedCut(data: seq<byte>, pt: nat, w: nat, tp: Tp, k: nat)
    requires pt <= k <= |data| && w > 0
    requires tp.STR? || tp.BIN? || tp.EXT? || tp.ARR? || tp.MAP?
    ensures
      var p, q := PlanSized(data, pt, w, tp), PlanSized(data[..k], pt, w, tp);
      if (p.Chars? || p.Objects?) && k < p.from then q == Bad(INCOMPLETE) else p.Bad? || p == q
  {
    if pt + w <= k { assert data[..k][pt..pt + w] == data[pt..pt + w]; }
  }

  lemma {:induction false} SkipCutN(data: seq<byte>, pt: nat, n: nat, k: nat)
    requires pt <= k <= |data| && Positive(SkipN(data, pt, n).tp)
    ensures SkipN(data, pt, n).pt <= k ==> SkipN(data[..k], pt, n) == SkipN(data, pt, n)
    ensures k < SkipN(data, pt, n).pt ==> SkipN(data[..k], pt, n).tp == INCOMPLETE
    decreases Rest(data, pt), 1, n
  {
    hide Skip;
    if n > 0 {
      SkipCut(data, pt, k);
      var r := Skip(data, pt);
      if r.pt <= k { SkipCutN(data, r.pt, n - 1, k); }
    }
  }

  // ---- depth of the recursion ----

  /** How often `mp_skip` is entered. */
  function Calls(data: seq<byte>, pt: nat): nat
    decreases Rest(data, pt), 0
  {
    if pt >= |data| then 1
    else
      var p := PlanOf(data, data[pt], pt + 1);
      if p.Objects? then 1 + CallsN(data, p.from, p.n) else 1
  }

  function CallsN(data: seq<byte>, pt: nat, n: nat): nat
    requires pt <= |data|
    decreases Rest(data, pt), 1, n
  {
    if n == 0 then 0
    else
      var r := Skip(data, pt);
      Calls(data, pt) + if Positive(r.tp) then CallsN(data, r.pt, n - 1) else 0
  }

  /** A call is paid for by a byte it takes, except one that finds the end. */
  lemma {:induction false} CallsBounded(data: seq<byte>, pt: nat)
    ensures Calls(data, pt) <= Rest(data, pt) + 1
    ensures Positive(Skip(data, pt).tp) ==> Calls(data, pt) <= Skip(data, pt).pt - pt
    decreases Rest(data, pt), 0
  {
    if pt < |data| {
      hide PlanOf;
      var p := PlanOf(data, data[pt], pt + 1);
      if p.Objects? { CallsBoundedN(data, p.from, p.n); }
    }
  }

  lemma {:induction false} CallsBoundedN(data: seq<byte>, pt: nat, n: nat)
    requires pt <= |data|
    ensures CallsN(data, pt, n) <= Rest(data, pt) + 1
    ensures Positive(SkipN(data, pt, n).tp) ==> CallsN(data, pt, n) <= SkipN(data, pt, n).pt - pt
    decreases Rest(data, pt), 1, n
  {
    hide Skip, Calls;
    if n > 0 {
      CallsBounded(data, pt);
      var r := Skip(data, pt);
      if Positive(r.tp) { CallsBoundedN(data, r.pt, n - 1); }
    }
  }
}
