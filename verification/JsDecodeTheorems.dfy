/** The stack machine against the recursive decoder. */
module JsDecodeTheorems {
  import opened Bytes
  import opened Msgpack
  import opened Mpack
  import A = MpackAgree
  import U = MpackUnpacker
  import opened JsUtf8
  import opened JsUtf8Theorems
  import opened JsDecode
  import opened JsCut

  // ---- values as JavaScript sees them ----

  /** The text of a string that nothing stands behind. */
  function TextOf(cfg: Config, key: bool, bytes: seq<byte>): text { TextAt(cfg, key, bytes, |bytes|, 0) }

  /** The object of a value; as a key, a string may be decoded differently. */
  function ToJs(cfg: Config, key: bool, v: Value): Js
    decreases v, 0
  {
    match v
    case Nil => JNull
    case Bool(b) => JBool(b)
    case Int(i) => JNumber(i)
    case F32(bits) => JFloat32(bits)
    case F64(bits) => JFloat64(bits)
    case Str(bytes) => JString(TextOf(cfg, key, bytes))
    case Bin(bytes) => JBytes(bytes)
    case Ext(tp, bytes) => JExt(tp, bytes)
    case Arr(items) => JArray(ToJsAll(cfg, items))
    case Map(flat) => JObject(Filled(cfg, [], flat))
  }

  function ToJsAll(cfg: Config, vs: seq<Value>): (r: seq<Js>)
    ensures |r| == |vs|
    decreases vs, 1
  {
    if vs == [] then [] else [ToJs(cfg, false, vs[0])] + ToJsAll(cfg, vs[1..])
  }

  /** The properties after the assignments of a map, in turn. */
  function Filled(cfg: Config, props: seq<(text, Js)>, flat: seq<Value>): seq<(text, Js)>
    decreases flat, 1
  {
    if |flat| < 2 then props
    else
      assert flat[1] in flat;
      Filled(cfg, Assign(props, NameOf(cfg, ToJs(cfg, true, flat[0])), ToJs(cfg, false, flat[1])), flat[2..])
  }

  /**
    * The value is within the limits, its strings are whole, and its keys are strings other than `__proto__` or
    * numbers.
    */
  predicate Fits(cfg: Config, key: bool, v: Value)
    decreases v, 0
  {
    match v
    case Str(bytes) => |bytes| <= cfg.maxStr && (ByHand(cfg, key, |bytes|) ==> Whole(bytes, 0, |bytes|))
    case Bin(bytes) => |bytes| <= cfg.maxBin
    case Ext(_, bytes) => |bytes| <= cfg.maxExt && |bytes| <= cfg.maxBin
    case Arr(items) => |items| <= cfg.maxArray && FitAll(cfg, items)
    case Map(flat) => |flat| % 2 == 0 && |flat| / 2 <= cfg.maxMap && FitPairs(cfg, flat)
    case _ => true
  }

  predicate FitAll(cfg: Config, vs: seq<Value>)
    decreases vs, 1
  {
    vs != [] ==> Fits(cfg, false, vs[0]) && FitAll(cfg, vs[1..])
  }

  predicate FitPairs(cfg: Config, flat: seq<Value>)
    decreases flat, 1
  {
    |flat| >= 2 ==>
      && Fits(cfg, true, flat[0]) && KeyOk(ToJs(cfg, true, flat[0]))
      && Fits(cfg, false, flat[1])
      && FitPairs(cfg, flat[2..])
  }

  // ---- one token against one header ----

  /** Token `t` is what the JavaScript decoder makes of what `mp_next` reads as `r` behind the head byte. */
  predicate Same(cfg: Config, key: bool, p: nat, r: Read, t: Token) {
    && p <= r.pt
    && if r.o.Failed? then true
       else if r.o.OArr? then t == ArrayToken(cfg, r.o.n, r.pt - p)
       else if r.o.OMap? then t == MapToken(cfg, r.o.n, r.pt - p)
       else Fits(cfg, key, A.Leaf(r.o)) ==> t == Atom(ToJs(cfg, key, A.Leaf(r.o)), r.pt - p)
  }

  lemma StringSame(cfg: Config, key: bool, data: seq<byte>, p: nat, n: nat, header: nat)
    requires p + header <= |data|
    ensures Same(cfg, key, p, ReadBody(data, p + header, n, STR), StringToken(cfg, key, data[p..], n, header))
  {
    hide Decode, Whole;
    if p + header + n <= |data| { TextSame(cfg, key, data, p, n, header); }
  }

  /** A whole string has the text it has by itself. */
  lemma TextSame(cfg: Config, key: bool, data: seq<byte>, p: nat, n: nat, header: nat)
    requires p + header + n <= |data|
    ensures
      var rest, s := data[p..], data[p + header..p + header + n];
      && (Whole(rest, header, header + n) <==> Whole(s, 0, n))
      && ((ByHand(cfg, key, n) ==> Whole(s, 0, n)) ==> TextAt(cfg, key, rest, n, header) == TextOf(cfg, key, s))
  {
    hide Decode, Whole;
    var rest, s := data[p..], data[p + header..p + header + n];
    assert rest[header..header + n] == s && s[0..n] == s;
    WholeSlice(rest, header, header + n, s, 0);
    if Whole(s, 0, n) { WholeIsLocal(rest, header, header + n, s, 0); }
  }

  lemma BinarySame(cfg: Config, key: bool, data: seq<byte>, p: nat, n: nat, header: nat)
    requires p + header <= |data|
    ensures Same(cfg, key, p, ReadBody(data, p + header, n, BIN), BinaryToken(cfg, data[p..], n, header))
  {
    if p + header + n <= |data| { assert data[p..][header..header + n] == data[p + header..p + header + n]; }
  }

  lemma BodySteady(cfg: Config, key: bool, data: seq<byte>, p: nat, n: nat, header: nat)
    requires p + header <= |data|
    requires var o := ReadBody(data, p + header, n, STR).o; !o.Failed? && Fits(cfg, key, A.Leaf(o))
    ensures StringSteady(cfg, key, data[p..], n, header)
  {
    hide Whole, Quiet;
    var rest, s := data[p..], data[p + header..p + header + n];
    assert rest[header..header + n] == s;
    WholeSlice(rest, header, header + n, s, 0);
    if ByHand(cfg, key, n) { WholeIsQuiet(rest, header, header + n); }
  }

  /** Strings that are whole take nothing from behind them. */
  lemma FitsIsSteady(cfg: Config, key: bool, data: seq<byte>, g: nat)
    requires g < |data|
    requires var o := Next(data, g).o; !o.Failed? && (o.OArr? || o.OMap? || Fits(cfg, key, A.Leaf(o)))
    ensures TokenSteady(cfg, key, data[g], data[g + 1..])
  {
    hide StringSteady, Fits, A.Leaf;
    var p, h := g + 1, data[g];
    if 0xa0 <= h < 0xc0 {
      BodySteady(cfg, key, data, p, h - 0xa0, 0);
    } else if 0xd9 <= h <= 0xdb {
      var w := StringWidth(h);
      assert Next(data, g) == ReadSized(data, p, w, STR);
      hide Next;
      if p + w <= |data| {
        assert data[p..][..w] == data[p..p + w];
        BodySteady(cfg, key, data, p, Load(data[p..p + w]), w);
      }
    }
  }

  lemma ExtSame(cfg: Config, key: bool, data: seq<byte>, p: nat, n: nat, header: nat)
    requires p + header <= |data|
    ensures Same(cfg, key, p, ReadExt(data, p + header, n), ExtensionToken(cfg, data[p..], n, header))
  {
    if p + header + 1 + n <= |data| { SliceOfSlice(data, p, |data|, header + 1, header + 1 + n); }
    assert data[p..] == data[p..|data|];
  }

  lemma SizedSame(cfg: Config, key: bool, data: seq<byte>, p: nat, w: nat, tp: Tp, kind: Kind)
    requires w > 0 && p <= |data|
    requires match tp case STR => kind.String? case BIN => kind.Binary? case EXT => kind.Extension?
                      case ARR => kind.Arrays? case MAP => kind.Maps? case _ => false
    ensures Same(cfg, key, p, ReadSized(data, p, w, tp), SizedToken(cfg, key, data[p..], w, kind))
  {
    if p + w <= |data| {
      assert data[p..][..w] == data[p..p + w];
      var n := Load(data[p..p + w]);
      hide StringToken, BinaryToken, ExtensionToken, ReadBody, ReadExt, Fits, ToJs, A.Leaf;
      StringSame(cfg, key, data, p, n, w);
      BinarySame(cfg, key, data, p, n, w);
      ExtSame(cfg, key, data, p, n, w);
    }
  }

  lemma NumberSame(cfg: Config, key: bool, data: seq<byte>, p: nat, w: nat, tp: Tp)
    requires w > 0 && p <= |data| && (tp.F64? || tp.U64? || tp.I64?)
    ensures Same(cfg, key, p, ReadScalar(data, p, w, tp), NumberToken(data[p..], w, tp))
  {
    if p + w <= |data| { assert data[p..][..w] == data[p..p + w]; }
  }

  predicate IsNumber(h: byte) { 0xca <= h <= 0xd3 }

  predicate IsSized(h: byte) { 0xc4 <= h < 0xca || 0xd8 < h < 0xe0 }

  lemma NumberTokenSame(cfg: Config, key: bool, data: seq<byte>, g: nat)
    requires g < |data| && IsNumber(data[g])
    ensures Same(cfg, key, g + 1, Next(data, g), TokenAt(cfg, key, data[g], data[g + 1..]))
  {
    hide NumberToken, ReadScalar, Same;
    NumberSame(cfg, key, data, g + 1, A.NumberWidth(data[g]), A.NumberType(data[g]));
  }

  lemma SizedTokenSame(cfg: Config, key: bool, data: seq<byte>, g: nat)
    requires g < |data| && IsSized(data[g])
    ensures Same(cfg, key, g + 1, Next(data, g), TokenAt(cfg, key, data[g], data[g + 1..]))
  {
    hide SizedToken, ReadSized, Same;
    var h := data[g];
    SizedSame(cfg, key, data, g + 1, A.SizeWidth(h), A.SizedType(h), SizedKind(h));
  }

  /** Both decoders read the same from every head byte. */
  lemma TokenSame(cfg: Config, key: bool, data: seq<byte>, g: nat)
    requires g < |data|
    ensures Same(cfg, key, g + 1, Next(data, g), TokenAt(cfg, key, data[g], data[g + 1..]))
  {
    var p, h := g + 1, data[g];
    if h < 0x80 || h >= 0xe0 || 0xc0 <= h <= 0xc3 {
      hide ArrayToken, MapToken;
    } else if h < 0xa0 {
      CountSame(cfg, key, data, g);
    } else if h < 0xc0 {
      hide Same, StringToken, ReadBody;
      StringSame(cfg, key, data, p, h - 0xa0, 0);
    } else if IsNumber(h) {
      hide Same, TokenAt, Next;
      NumberTokenSame(cfg, key, data, g);
    } else if IsSized(h) {
      hide Same, TokenAt, Next;
      SizedTokenSame(cfg, key, data, g);
    } else {
      hide Same, ExtensionToken, ReadExt;
      ExtSame(cfg, key, data, p, FixExt(h), 0);
    }
  }

  lemma CountSame(cfg: Config, key: bool, data: seq<byte>, g: nat)
    requires g < |data| && 0x80 <= data[g] < 0xa0
    ensures Same(cfg, key, g + 1, Next(data, g), TokenAt(cfg, key, data[g], data[g + 1..]))
  {
  }

  // ---- whole objects ----

  /** What becomes of the input, and whether it depends on where it is cut. */
  function Both(cfg: Config, rest: seq<byte>, stack: seq<State>): (Outcome, bool) {
    (Run(cfg, rest, stack), Steady(cfg, rest, stack))
  }

  /** How a run goes on when object `o` is complete and `rest` is unread. */
  function Onward(cfg: Config, rest: seq<byte>, stack: seq<State>, o: Js): (Outcome, bool) {
    match Feed(cfg, stack, o)
    case Refused => (Invalid, true)
    case Finished(r) => (Object(r, rest), true)
    case Going(next) => Both(cfg, rest, next)
  }

  lemma RunToken(cfg: Config, data: seq<byte>, g: nat, p: nat, stack: seq<State>)
    requires g < p <= |data|
    ensures
      var h, rest := data[g], data[g + 1..];
      var t := TokenAt(cfg, IsKey(stack), h, rest);
      && (t.Atom? && t.used == p - (g + 1) && TokenSteady(cfg, IsKey(stack), h, rest) ==>
            Both(cfg, data[g..], stack) == Onward(cfg, data[p..], stack, t.o))
      && (t.Open? && t.used == p - (g + 1) ==> Both(cfg, data[g..], stack) == Both(cfg, data[p..], stack + [t.st]))
  {
    hide TokenAt, TokenSteady, Feed, IsKey, Doomed;
    var rest := data[g..];
    assert rest[0] == data[g] && rest[1..] == data[g + 1..];
    assert rest[1 + (p - (g + 1))..] == data[p..];
  }

  lemma OnwardItem(cfg: Config, rest: seq<byte>, stack: seq<State>, n: nat, done: seq<Js>, o: Js)
    ensures Onward(cfg, rest, stack + [ArrayState(n, done)], o)
         == if |done| + 1 == n then Onward(cfg, rest, stack, JArray(done + [o]))
           else Both(cfg, rest, stack + [ArrayState(n, done + [o])])
  {
    hide Both;
    var full := stack + [ArrayState(n, done)];
    assert full[..|full| - 1] == stack;
  }

  lemma OnwardKey(cfg: Config, rest: seq<byte>, stack: seq<State>, n: nat, count: nat, props: seq<(text, Js)>, o: Js)
    requires KeyOk(o)
    ensures Onward(cfg, rest, stack + [MapState(n, None, count, props)], o)
         == Both(cfg, rest, stack + [MapState(n, Some(NameOf(cfg, o)), count, props)])
  {
    hide Both, KeyOk;
    var full := stack + [MapState(n, None, count, props)];
    assert full[..|full| - 1] == stack;
  }

  lemma OnwardValue(cfg: Config, rest: seq<byte>, stack: seq<State>, n: nat, k: text, count: nat,
      props: seq<(text, Js)>, o: Js)
    ensures Onward(cfg, rest, stack + [MapState(n, Some(k), count, props)], o)
         == if count + 1 == n then Onward(cfg, rest, stack, JObject(Assign(props, k, o)))
            else Both(cfg, rest, stack + [MapState(n, None, count + 1, Assign(props, k, o))])
  {
    hide Both, Assign;
    var full := stack + [MapState(n, Some(k), count, props)];
    assert full[..|full| - 1] == stack;
  }

  /** Where the recursive decoder reads a value, the stack machine gets to the point where that value is complete. */
  lemma {:induction false} MachineFollows(cfg: Config, data: seq<byte>, g: nat, stack: seq<State>)
    requires A.Walk(data, g).Got? && Fits(cfg, IsKey(stack), A.Walk(data, g).v)
    ensures
      var w := A.Walk(data, g);
      Both(cfg, data[g..], stack) == Onward(cfg, data[w.pt..], stack, ToJs(cfg, IsKey(stack), w.v))
    decreases Rest(data, g), 0
  {
    hide TokenAt, TokenSteady, Next, Both, Onward, IsKey, A.WalkN, ToJs, Fits, A.Leaf;
    WalkedPast(data, g);
    TokenSame(cfg, IsKey(stack), data, g);
    var r := Next(data, g);
    RunToken(cfg, data, g, r.pt, stack);
    FitsIsSteady(cfg, IsKey(stack), data, g);
    if r.o.OArr? {
      ArrayFollows(cfg, data, r.pt, stack, IsKey(stack), A.Walk(data, g).v.items);
    } else if r.o.OMap? {
      MapFollows(cfg, data, r.pt, stack, IsKey(stack), A.Walk(data, g).v.flat);
    }
  }

  lemma WalkedPast(data: seq<byte>, g: nat)
    requires A.Walk(data, g).Got?
    ensures g < Next(data, g).pt <= |data| && !Next(data, g).o.Failed?
  {
    hide Next, A.WalkN;
  }

  lemma {:induction false} ArrayFollows(cfg: Config, data: seq<byte>, p: nat, stack: seq<State>, key: bool,
      items: seq<Value>)
    requires p <= |data| && A.WalkN(data, p, |items|).Got? && A.WalkN(data, p, |items|).v == items
    requires Fits(cfg, key, Arr(items))
    ensures
      var t, after := ArrayToken(cfg, |items|, 0), data[A.WalkN(data, p, |items|).pt..];
      match t
      case Atom(o, _) => o == ToJs(cfg, key, Arr(items)) && after == data[p..]
      case Open(st, _) => Both(cfg, data[p..], stack + [st]) == Onward(cfg, after, stack, ToJs(cfg, key, Arr(items)))
      case _ => false
    decreases Rest(data, p), 2
  {
    hide Both, Onward, A.WalkN;
    if items != [] {
      ItemsFollow(cfg, data, p, stack, [], items);
      assert [] + ToJsAll(cfg, items) == ToJsAll(cfg, items);
    } else {
      A.NothingToWalk(data, p);
    }
  }

  lemma {:induction false} MapFollows(cfg: Config, data: seq<byte>, p: nat, stack: seq<State>, key: bool,
      flat: seq<Value>)
    requires p <= |data| && A.WalkN(data, p, |flat|).Got? && A.WalkN(data, p, |flat|).v == flat
    requires Fits(cfg, key, Map(flat))
    ensures
      var t, after := MapToken(cfg, |flat| / 2, 0), data[A.WalkN(data, p, |flat|).pt..];
      match t
      case Atom(o, _) => o == ToJs(cfg, key, Map(flat)) && after == data[p..]
      case Open(st, _) => Both(cfg, data[p..], stack + [st]) == Onward(cfg, after, stack, ToJs(cfg, key, Map(flat)))
      case _ => false
    decreases Rest(data, p), 2
  {
    hide Both, Onward, A.WalkN;
    if flat != [] {
      PairsFollow(cfg, data, p, stack, 0, [], flat);
    } else {
      A.NothingToWalk(data, p);
    }
  }

  lemma {:induction false} ItemsFollow(cfg: Config, data: seq<byte>, p: nat, stack: seq<State>, done: seq<Js>,
      vs: seq<Value>)
    requires vs != [] && p <= |data| && A.WalkN(data, p, |vs|).Got? && A.WalkN(data, p, |vs|).v == vs && FitAll(cfg, vs)
    ensures Both(cfg, data[p..], stack + [ArrayState(|done| + |vs|, done)])
         == Onward(cfg, data[A.WalkN(data, p, |vs|).pt..], stack, JArray(done + ToJsAll(cfg, vs)))
    decreases Rest(data, p), 1
  {
    hide A.Walk, Fits, ToJs, Both, Onward, IsKey;
    A.WalkedFirst(data, p, vs);
    hide A.WalkN;
    var w, n, v, rest := A.Walk(data, p), |done| + |vs|, vs[0], vs[1..];
    var o, tail := ToJs(cfg, false, v), ToJsAll(cfg, rest);
    assert Fits(cfg, false, v) && FitAll(cfg, rest);
    assert ToJsAll(cfg, vs) == [o] + tail;
    hide ToJsAll, FitAll;
    NoKey(stack, n, done);
    MachineFollows(cfg, data, p, stack + [ArrayState(n, done)]);
    OnwardItem(cfg, data[w.pt..], stack, n, done, o);
    assert done + [o] + tail == done + ([o] + tail);
    if |vs| == 1 {
      A.NothingToWalk(data, w.pt);
      assert tail == [] && done + ([o] + tail) == done + [o];
    } else {
      ItemsFollow(cfg, data, w.pt, stack, done + [o], rest);
    }
  }

  lemma NoKey(stack: seq<State>, n: nat, done: seq<Js>)
    ensures !IsKey(stack + [ArrayState(n, done)])
  {
  }

  lemma {:induction false} PairsFollow(cfg: Config, data: seq<byte>, p: nat, stack: seq<State>,
                                       count: nat, props: seq<(text, Js)>, flat: seq<Value>)
    requires flat != [] && |flat| % 2 == 0 && p <= |data|
    requires A.WalkN(data, p, |flat|).Got? && A.WalkN(data, p, |flat|).v == flat && FitPairs(cfg, flat)
    ensures Both(cfg, data[p..], stack + [MapState(count + |flat| / 2, None, count, props)])
         == Onward(cfg, data[A.WalkN(data, p, |flat|).pt..], stack, JObject(Filled(cfg, props, flat)))
    decreases Rest(data, p), 1
  {
    hide A.Walk, Fits, ToJs, KeyOk, Assign, NameOf, Both, Onward, IsKey;
    A.WalkedFirst(data, p, flat);
    var w := A.Walk(data, p);
    A.WalkedFirst(data, w.pt, flat[1..]);
    var x := A.Walk(data, w.pt);
    hide A.WalkN;
    var n, k, o := count + |flat| / 2, ToJs(cfg, true, flat[0]), ToJs(cfg, false, flat[1]);
    var name, rest := NameOf(cfg, k), flat[2..];
    var more := Assign(props, name, o);
    assert flat[1..][1..] == rest && flat[1..][0] == flat[1];
    assert Fits(cfg, true, flat[0]) && KeyOk(k) && Fits(cfg, false, flat[1]) && FitPairs(cfg, rest);
    assert Filled(cfg, props, flat) == Filled(cfg, more, rest);
    assert rest == [] ==> Filled(cfg, more, rest) == more;
    hide Filled, FitPairs;
    KeyOrNot(stack, n, name, count, props);
    MachineFollows(cfg, data, p, stack + [MapState(n, None, count, props)]);
    OnwardKey(cfg, data[w.pt..], stack, n, count, props, k);
    MachineFollows(cfg, data, w.pt, stack + [MapState(n, Some(name), count, props)]);
    OnwardValue(cfg, data[x.pt..], stack, n, name, count, props, o);
    if |flat| == 2 {
      A.NothingToWalk(data, x.pt);
    } else {
      PairsFollow(cfg, data, x.pt, stack, count + 1, more, rest);
    }
  }

  lemma KeyOrNot(stack: seq<State>, n: nat, name: text, count: nat, props: seq<(text, Js)>)
    ensures IsKey(stack + [MapState(n, None, count, props)]) && !IsKey(stack + [MapState(n, Some(name), count, props)])
  {
  }

  /** A complete object, and nothing else, decodes to itself. */
  lemma ObjectDecodes(cfg: Config, data: seq<byte>, v: Value)
    requires A.Walk(data, 0) == A.Got(v, |data|) && Fits(cfg, false, v)
    ensures Run(cfg, data, []) == Object(ToJs(cfg, false, v), []) && Steady(cfg, data, [])
  {
    hide A.Walk, Run, Steady;
    MachineFollows(cfg, data, 0, []);
    assert data[0..] == data && data[|data|..] == [];
  }

  /** What the server packs, the client decodes to the same value. */
  lemma ServerToClient(cfg: Config, v: Value)
    requires Packable(v) && Fits(cfg, false, v)
    ensures Run(cfg, Pack(v), []) == Object(ToJs(cfg, false, v), [])
  {
    hide A.Walk, Pack;
    assert Pack(v) + [] == Pack(v);
    U.PackedWalk(v, []);
    ObjectDecodes(cfg, Pack(v), v);
  }
}
