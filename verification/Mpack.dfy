/**
  * The two MessagePack decoders of `util/mpack.h`: `mp_next`, which reads one header or scalar, and `mp_skip`, which
  * runs over a whole object.
  */
module Mpack {
  import opened Bytes
  import opened Msgpack

  /** `mp_enum_t` without the members that are never returned. */
  datatype Tp = INCOMPLETE | NEVER_USED | END | I64 | U64 | F64 | BIN | STR | BOOL | NIL | ARR | MAP | EXT

  /** Positive values of `mp_enum_t`: an object was read. */
  predicate Positive(tp: Tp) { !tp.INCOMPLETE? && !tp.NEVER_USED? && !tp.END? }

  /** What `mp_next` stores: the object's type, and its payload. */
  datatype Obj =
    | Failed(tp: Tp)
    | OU64(u: nat) | OI64(i: int) | OF32(bits: nat) | OF64(bits: nat)
    | OStr(bytes: seq<byte>) | OBin(bytes: seq<byte>) | OExt(etp: int, bytes: seq<byte>)
    | OBool(b: bool) | ONil | OArr(n: nat) | OMap(n: nat)

  function TypeOf(o: Obj): Tp {
    match o
    case Failed(tp) => tp
    case OU64(_) => Tp.U64 case OI64(_) => Tp.I64 case OF32(_) => Tp.F64 case OF64(_) => Tp.F64
    case OStr(_) => Tp.STR case OBin(_) => Tp.BIN case OExt(_, _) => Tp.EXT
    case OBool(_) => Tp.BOOL case ONil => Tp.NIL case OArr(_) => Tp.ARR case OMap(_) => Tp.MAP
  }

  /** What a read gives, and where it leaves the cursor. */
  datatype Read = Read(o: Obj, pt: nat) {
    /** An object that was read lies inside the buffer; a failure has no positive type. */
    predicate From(data: seq<byte>, start: nat) {
      && start <= pt
      && if o.Failed? then !Positive(o.tp) else pt <= |data|
    }
  }

  // ---- mp_next ----

  /** `mp_read_8`, `_16`, `_32`, `_64`: a number of `w` bytes, or nothing if they are not all there. */
  function ReadN(data: seq<byte>, pt: nat, w: nat): Option<nat>
    requires w > 0
  {
    if pt + (w - 1) >= |data| then None else Some(Load(data[pt..pt + w]))
  }

  /** `mp_read_obj_data`: the cursor moves even when the bytes are not all there. */
  function ReadBody(data: seq<byte>, pt: nat, n: nat, tp: Tp): (r: Read)
    requires tp.STR? || tp.BIN?
    ensures r.From(data, pt)
  {
    if pt + n > |data| then Read(Failed(INCOMPLETE), pt + n)
    else Read(if tp.STR? then OStr(data[pt..pt + n]) else OBin(data[pt..pt + n]), pt + n)
  }

  function SignedByte(b: byte): int { if b < 128 then b else b - 256 }

  /** `mp_read_ext_type` and the data. */
  function ReadExt(data: seq<byte>, pt: nat, n: nat): (r: Read)
    ensures r.From(data, pt)
  {
    if pt >= |data| then Read(Failed(INCOMPLETE), pt)
    else if pt + 1 + n > |data| then Read(Failed(INCOMPLETE), pt + 1 + n)
    else Read(OExt(SignedByte(data[pt]), data[pt + 1..pt + 1 + n]), pt + 1 + n)
  }

  /** A header whose length or count has `w` bytes. */
  function ReadSized(data: seq<byte>, pt: nat, w: nat, tp: Tp): (r: Read)
    requires w > 0 && (tp.STR? || tp.BIN? || tp.EXT? || tp.ARR? || tp.MAP?)
    ensures r.From(data, pt)
  {
    match ReadN(data, pt, w)
    case None => Read(Failed(INCOMPLETE), pt)
    case Some(n) =>
      if tp.ARR? then Read(OArr(n), pt + w)
      else if tp.MAP? then Read(OMap(n), pt + w)
      else if tp.EXT? then ReadExt(data, pt + w, n)
      else ReadBody(data, pt + w, n, tp)
  }

  function SignedOf(n: nat, w: nat): int {
    if n < Pow256(w) / 2 then n else n - Pow256(w)
  }

  function ReadScalar(data: seq<byte>, pt: nat, w: nat, tp: Tp): (r: Read)
    requires w > 0 && (tp.F64? || tp.U64? || tp.I64?)
    ensures r.From(data, pt)
  {
    match ReadN(data, pt, w)
    case None => Read(Failed(INCOMPLETE), pt)
    case Some(n) =>
      Read(if tp.U64? then OU64(n) else if tp.I64? then OI64(SignedOf(n, w))
           else if w == 4 then OF32(n) else OF64(n), pt + w)
  }

  /** `1 << (token - 0xd4)` */
  function FixExt(token: byte): nat {
    if token == 0xd4 then 1 else if token == 0xd5 then 2 else if token == 0xd6 then 4 else if token == 0xd7 then 8
      else 16
  }

  /** The switch of `mp_next` on the first byte; `pt` is behind it. */
  function NextAfter(data: seq<byte>, token: byte, pt: nat): (r: Read)
    requires pt <= |data|
    ensures r.From(data, pt)
  {
    hide ReadBody, ReadExt, ReadSized, ReadScalar;
    if token <= 0x7f then Read(OU64(token), pt)
    else if token <= 0x8f then Read(OMap(token - 0x80), pt)
    else if token <= 0x9f then Read(OArr(token - 0x90), pt)
    else if token <= 0xbf then ReadBody(data, pt, token - 0xa0, STR)
    else if token >= 0xe0 then Read(OI64(token - 256), pt)
    else if token == 0xc0 then Read(ONil, pt)
    else if token == 0xc1 then Read(Failed(NEVER_USED), pt)
    else if token <= 0xc3 then Read(OBool(token == 0xc3), pt)
    else if token == 0xc4 then ReadSized(data, pt, 1, BIN)
    else if token == 0xc5 then ReadSized(data, pt, 2, BIN)
    else if token == 0xc6 then ReadSized(data, pt, 4, BIN)
    else if token == 0xc7 then ReadSized(data, pt, 1, EXT)
    else if token == 0xc8 then ReadSized(data, pt, 2, EXT)
    else if token == 0xc9 then ReadSized(data, pt, 4, EXT)
    else if token == 0xca then ReadScalar(data, pt, 4, Tp.F64)
    else if token == 0xcb then ReadScalar(data, pt, 8, Tp.F64)
    else if token == 0xcc then ReadScalar(data, pt, 1, U64)
    else if token == 0xcd then ReadScalar(data, pt, 2, U64)
    else if token == 0xce then ReadScalar(data, pt, 4, U64)
    else if token == 0xcf then ReadScalar(data, pt, 8, U64)
    else if token == 0xd0 then ReadScalar(data, pt, 1, I64)
    else if token == 0xd1 then ReadScalar(data, pt, 2, I64)
    else if token == 0xd2 then ReadScalar(data, pt, 4, I64)
    else if token == 0xd3 then ReadScalar(data, pt, 8, I64)
    else if token <= 0xd8 then ReadExt(data, pt, FixExt(token))
    else if token == 0xd9 then ReadSized(data, pt, 1, STR)
    else if token == 0xda then ReadSized(data, pt, 2, STR)
    else if token == 0xdb then ReadSized(data, pt, 4, STR)
    else if token == 0xdc then ReadSized(data, pt, 2, ARR)
    else if token == 0xdd then ReadSized(data, pt, 4, ARR)
    else if token == 0xde then ReadSized(data, pt, 2, MAP)
    else ReadSized(data, pt, 4, MAP)
  }

  /** `mp_next` */
  function Next(data: seq<byte>, pt: nat): (r: Read)
    ensures r.From(data, pt)
    ensures !r.o.Failed? ==> pt < r.pt <= |data|
  {
    if pt >= |data| then Read(Failed(END), pt) else NextAfter(data, data[pt], pt + 1)
  }

  // ---- mp_skip ----

  /** What the first byte of an object tells `mp_skip` to do. */
  datatype Plan =
    | Done(tp: Tp)                      // nothing follows
    | Bad(tp: Tp)                       // not an object, or its header is cut off
    | Chars(n: nat, tp: Tp, from: nat)    // skip `n` bytes
    | Objects(n: nat, tp: Tp, from: nat) // skip `n` objects
  {
    predicate From(data: seq<byte>, start: nat) {
      && (Bad? <==> !Positive(tp))
      && (Chars? || Objects? ==> start <= from <= |data|)
    }
  }

  /** A length or count of `w` bytes, and what to skip for it, in the 32-bit arithmetic of the source. */
  function PlanSized(data: seq<byte>, pt: nat, w: nat, tp: Tp): (p: Plan)
    requires w > 0 && (tp.STR? || tp.BIN? || tp.EXT? || tp.ARR? || tp.MAP?)
    ensures p.From(data, pt)
  {
    match ReadN(data, pt, w)
    case None => Bad(INCOMPLETE)
    case Some(n) =>
      if tp.ARR? then Objects(n, tp, pt + w)
      else if tp.MAP? then Objects(n * 2 % TWO_32, tp, pt + w)
      else if tp.EXT? then Chars((n + 1) % TWO_32, tp, pt + w)
      else Chars(n, tp, pt + w)
  }

  /** The switch of `mp_skip` on the first byte; `pt` is behind it. */
  function PlanOf(data: seq<byte>, token: byte, pt: nat): (p: Plan)
    requires pt <= |data|
    ensures p.From(data, pt)
  {
    hide PlanSized;
    if token <= 0x7f then Done(U64)
    else if token <= 0x8f then Objects((token - 0x80) * 2, MAP, pt)
    else if token <= 0x9f then Objects(token - 0x90, ARR, pt)
    else if token <= 0xbf then Chars(token - 0xa0, STR, pt)
    else if token >= 0xe0 then Done(I64)
    else if token == 0xc0 then Done(NIL)
    else if token == 0xc1 then Bad(NEVER_USED)
    else if token <= 0xc3 then Done(BOOL)
    else if token == 0xc4 then PlanSized(data, pt, 1, BIN)
    else if token == 0xc5 then PlanSized(data, pt, 2, BIN)
    else if token == 0xc6 then PlanSized(data, pt, 4, BIN)
    else if token == 0xc7 then PlanSized(data, pt, 1, EXT)
    else if token == 0xc8 then PlanSized(data, pt, 2, EXT)
    else if token == 0xc9 then PlanSized(data, pt, 4, EXT)
    else if token == 0xca then Chars(4, Tp.F64, pt)
    else if token == 0xcb then Chars(8, Tp.F64, pt)
    else if token == 0xcc then Chars(1, U64, pt)
    else if token == 0xcd then Chars(2, U64, pt)
    else if token == 0xce then Chars(4, U64, pt)
    else if token == 0xcf then Chars(8, U64, pt)
    else if token == 0xd0 then Chars(1, I64, pt)
    else if token == 0xd1 then Chars(2, I64, pt)
    else if token == 0xd2 then Chars(4, I64, pt)
    else if token == 0xd3 then Chars(8, I64, pt)
    else if token <= 0xd8 then Chars(FixExt(token) + 1, EXT, pt)
    else if token == 0xd9 then PlanSized(data, pt, 1, STR)
    else if token == 0xda then PlanSized(data, pt, 2, STR)
    else if token == 0xdb then PlanSized(data, pt, 4, STR)
    else if token == 0xdc then PlanSized(data, pt, 2, ARR)
    else if token == 0xdd then PlanSized(data, pt, 4, ARR)
    else if token == 0xde then PlanSized(data, pt, 2, MAP)
    else PlanSized(data, pt, 4, MAP)
  }

  /** Where `mp_skip` stands afterwards and what it returns. */
  datatype Skipped = Skipped(tp: Tp, pt: nat)

  function Rest(data: seq<byte>, pt: nat): nat {
    if pt <= |data| then |data| - pt else 0
  }

  /** `mp_skip` */
  function Skip(data: seq<byte>, pt: nat): (r: Skipped)
    ensures pt <= r.pt
    ensures Positive(r.tp) ==> pt < r.pt <= |data|
    decreases Rest(data, pt), 0
  {
    if pt >= |data| then Skipped(END, pt)
    else
      match PlanOf(data, data[pt], pt + 1)
      case Done(tp) => Skipped(tp, pt + 1)
      case Bad(tp) => Skipped(tp, pt + 1)
      case Chars(n, tp, from) => Skipped(if from + n > |data| then INCOMPLETE else tp, from + n)
      case Objects(n, tp, from) =>
        var r := SkipN(data, from, n);
        if Positive(r.tp) then Skipped(tp, r.pt) else r
  }

  /** The `mp_skip_n` loop; `NIL` stands for its normal end. */
  function SkipN(data: seq<byte>, pt: nat, n: nat): (r: Skipped)
    requires pt <= |data|
    ensures pt <= r.pt
    ensures Positive(r.tp) ==> r.tp.NIL? && r.pt <= |data|
    decreases Rest(data, pt), 1, n
  {
    if n == 0 then Skipped(NIL, pt)
    else
      var r := Skip(data, pt);
      if Positive(r.tp) then SkipN(data, r.pt, n - 1)
      else Skipped(if r.tp.END? then INCOMPLETE else r.tp, r.pt)
  }
}
