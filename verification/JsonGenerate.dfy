/** `mp__to_json`: from MessagePack bytes to calls of the JSON generator. */
module JsonGenerate {
  import opened Bytes
  import opened Msgpack
  import opened Mpack
  import opened MpackUnpacker

  /**
    * The calls `yajl_gen_*`. A key and a string value are the same call; a 32-bit float is converted to a double
    * on the way, which is a call of its own here.
    */
  datatype Call =
    | GenNull | GenBool(b: bool) | GenInteger(i: int) | GenNumber(u: nat) | GenDouble(bits: nat) | GenFloat(bits: nat)
    | GenString(s: seq<byte>)
    | GenMapOpen | GenMapClose | GenArrayOpen | GenArrayClose

  /** What the generator says to a call, given the calls it took before. */
  type Taste = (seq<Call>, Call) -> bool

  datatype Made = Made(ok: bool, calls: seq<Call>, pt: nat)

  function Give(taste: Taste, calls: seq<Call>, c: Call, pt: nat): Made {
    if taste(calls, c) then Made(true, calls + [c], pt) else Made(false, calls, pt)
  }

  function ScalarCall(o: Obj): Option<Call>
    requires !o.Failed? && !o.OArr? && !o.OMap?
  {
    match o
    case OI64(i) => Some(GenInteger(i))
    case OU64(u) => Some(if u >= TWO_63 then GenNumber(u) else GenInteger(u))
    case OF32(bits) => Some(GenFloat(bits))
    case OF64(bits) => Some(GenDouble(bits))
    case OStr(s) => Some(GenString(s))
    case OBool(b) => Some(GenBool(b))
    case ONil => Some(GenNull)
    case OBin(_) => None
    case OExt(_, _) => None
  }

  /** `mp__to_json`; at the end of the input it makes no call and succeeds. */
  function ToJson(data: seq<byte>, pt: nat, calls: seq<Call>, taste: Taste): (r: Made)
    ensures pt <= r.pt
    decreases Rest(data, pt), 0
  {
    var o, p := Next(data, pt).o, Next(data, pt).pt;
    match o
    case Failed(tp) => Made(tp.END?, calls, p)
    case OArr(n) => Container(data, p, calls, taste, GenArrayOpen, n, GenArrayClose)
    case OMap(n) => Container(data, p, calls, taste, GenMapOpen, 2 * n, GenMapClose)
    case _ =>
      match ScalarCall(o)
      case None => Made(false, calls, p)
      case Some(c) => Give(taste, calls, c, p)
  }

  function Container(data: seq<byte>, p: nat, calls: seq<Call>, taste: Taste, open: Call, n: nat, close: Call)
    : (r: Made)
    ensures p <= r.pt
    decreases Rest(data, p), 2
  {
    var a := Give(taste, calls, open, p);
    if !a.ok then a
    else
      var b := ToJsonN(data, p, a.calls, taste, n);
      if !b.ok then b else Give(taste, b.calls, close, b.pt)
  }

  function ToJsonN(data: seq<byte>, pt: nat, calls: seq<Call>, taste: Taste, n: nat): (r: Made)
    ensures pt <= r.pt
    decreases Rest(data, pt), 1, n
  {
    if n == 0 then Made(true, calls, pt)
    else
      var r := ToJson(data, pt, calls, taste);
      if r.ok then ToJsonN(data, r.pt, r.calls, taste, n - 1) else r
  }

  /** The generator, which keeps the calls it takes. */
  class Generator {
    const taste: Taste
    var calls: seq<Call>

    constructor (taste: Taste)
      ensures this.taste == taste && calls == []
    {
      this.taste := taste;
      calls := [];
    }

    method Take(c: Call) returns (ok: bool)
      modifies this
      ensures forall pt: nat :: Made(ok, calls, pt) == Give(taste, old(calls), c, pt)
    {
      ok := taste(calls, c);
      if ok { calls := calls + [c]; }
    }

    /** `mp__to_json` */
    method Generate(up: Unpacker) returns (ok: bool)
      modifies this, up
      ensures Made(ok, calls, up.pt) == ToJson(up.data, old(up.pt), old(calls), taste)
      decreases Rest(up.data, up.pt), 0
    {
      var o := up.Next();
      match o
      case Failed(tp) => return tp.END?;
      case OArr(n) =>
        ok := Take(GenArrayOpen);
        if !ok { return; }
        ok := GenerateAll(up, n);
        if !ok { return; }
        ok := Take(GenArrayClose);
      case OMap(n) =>
        ok := Take(GenMapOpen);
        if !ok { return; }
        ok := GenerateAll(up, 2 * n);
        if !ok { return; }
        ok := Take(GenMapClose);
      case _ =>
        match ScalarCall(o)
        case None => return false;
        case Some(c) => ok := Take(c);
    }

    /** The loops over the items of an array and the keys and values of a map. */
    method GenerateAll(up: Unpacker, n: nat) returns (ok: bool)
      modifies this, up
      ensures Made(ok, calls, up.pt) == ToJsonN(up.data, old(up.pt), old(calls), taste, n)
      decreases Rest(up.data, up.pt), 1
    {
      var i := n;
      ok := true;
      while i > 0
        invariant 0 <= i && old(up.pt) <= up.pt
        invariant ok
        invariant ToJsonN(up.data, up.pt, calls, taste, i) == ToJsonN(up.data, old(up.pt), old(calls), taste, n)
      {
        i := i - 1;
        ok := Generate(up);
        if !ok { return; }
      }
    }
  }
}
