/** What the JavaScript decoder does with the bytes it has not read yet: one token at a time, with a stack. */
module JsDecode {
  import opened Bytes
  import opened Msgpack
  import opened Mpack
  import opened JsUtf8
  import opened JsUtf8Theorems

  type text = seq<unit>

  /**
    * JavaScript values.  A number is what the runtime makes of the integer or of the float bits; an extension is what
    * the extension codec makes of its data.  The properties of an object are in the order of their first assignment.
    */
  datatype Js =
    | JNull | JBool(b: bool) | JNumber(i: int) | JFloat32(bits: nat) | JFloat64(bits: nat) | JString(s: text)
    | JBytes(bytes: seq<byte>) | JExt(tp: int, bytes: seq<byte>) | JArray(items: seq<Js>)
    | JObject(props: seq<(text, Js)>)

  /** Limits, the longest key that goes through the key cache (0 without one), and the runtime's own functions. */
  datatype Config = Config(maxStr: nat, maxBin: nat, maxArray: nat, maxMap: nat, maxExt: nat, keyMax: nat,
                           textDecoder: seq<byte> -> text, nameOf: Js -> text)

  /** An array or a map under construction; a map waits for a key or for the value of `key`. */
  datatype State =
    | ArrayState(size: nat, items: seq<Js>)
    | MapState(size: nat, key: Option<text>, readCount: nat, props: seq<(text, Js)>)

  const THRESHOLD: nat := 200

  // ---- strings ----

  /** Whether the string goes through `utf8DecodeJs`. */
  predicate ByHand(cfg: Config, key: bool, n: nat) {
    n <= THRESHOLD || (key && n <= cfg.keyMax)
  }

  /** Whether the string goes through the key cache. */
  predicate Cached(cfg: Config, key: bool, n: nat) {
    key && 0 < n <= cfg.keyMax
  }

  /** The text of a string of `n` bytes behind `header`; decoding by hand also sees the bytes behind the string. */
  function TextAt(cfg: Config, key: bool, rest: seq<byte>, n: nat, header: nat): text
    requires header + n <= |rest|
  {
    if ByHand(cfg, key, n) then Decode(rest, header, header + n) else cfg.textDecoder(rest[header..header + n])
  }

  // ---- tokens ----

  /** `Ragged` is a cached key whose last sequence reaches behind its end: its text depends on what the cache holds. */
  datatype Token = More | Wrong | Ragged | Atom(o: Js, used: nat) | Open(st: State, used: nat) {
    /** A token lies inside the input. */
    predicate In(rest: seq<byte>) { (Atom? || Open?) ==> used <= |rest| }
  }

  /** `decodeUtf8String` on the input behind the head byte. */
  function StringToken(cfg: Config, key: bool, rest: seq<byte>, n: nat, header: nat): (t: Token)
    ensures t.In(rest)
  {
    if n > cfg.maxStr then Wrong
    else if |rest| < header + n then More
    else if Cached(cfg, key, n) && !Whole(rest, header, header + n) then Ragged
    else Atom(JString(TextAt(cfg, key, rest, n, header)), header + n)
  }

  /** `decodeBinary` */
  function BinaryToken(cfg: Config, rest: seq<byte>, n: nat, header: nat): (t: Token)
    ensures t.In(rest)
  {
    if n > cfg.maxBin then Wrong
    else if |rest| < n + header then More
    else Atom(JBytes(rest[header..header + n]), header + n)
  }

  /** `decodeExtension` */
  function ExtensionToken(cfg: Config, rest: seq<byte>, n: nat, header: nat): (t: Token)
    ensures t.In(rest)
  {
    if n > cfg.maxExt then Wrong
    else if header >= |rest| then More
    else
      var t := BinaryToken(cfg, rest, n, header + 1);
      if t.Atom? then Atom(JExt(SignedByte(rest[header]), t.o.bytes), t.used) else t
  }

  datatype Kind = String | Binary | Extension | Arrays | Maps

  function ArrayToken(cfg: Config, n: nat, used: nat): Token {
    if n == 0 then Atom(JArray([]), used)
    else if n > cfg.maxArray then Wrong
    else Open(ArrayState(n, []), used)
  }

  function MapToken(cfg: Config, n: nat, used: nat): Token {
    if n == 0 then Atom(JObject([]), used)
    else if n > cfg.maxMap then Wrong
    else Open(MapState(n, None, 0, []), used)
  }

  /** A length or a count of `w` bytes, and what it announces. */
  function SizedToken(cfg: Config, key: bool, rest: seq<byte>, w: nat, kind: Kind): (t: Token)
    ensures t.In(rest)
  {
    if |rest| < w then More
    else
      var n := Load(rest[..w]);
      match kind
      case String => StringToken(cfg, key, rest, n, w)
      case Binary => BinaryToken(cfg, rest, n, w)
      case Extension => ExtensionToken(cfg, rest, n, w)
      case Arrays => ArrayToken(cfg, n, w)
      case Maps => MapToken(cfg, n, w)
  }

  /** Numbers of `w` bytes. */
  function NumberToken(rest: seq<byte>, w: nat, tp: Tp): (t: Token)
    requires tp.F64? || tp.U64? || tp.I64?
    ensures t.In(rest)
  {
    if |rest| < w then More
    else
      var n := Load(rest[..w]);
      Atom(if tp.U64? then JNumber(n) else if tp.I64? then JNumber(SignedOf(n, w))
           else if w == 4 then JFloat32(n) else JFloat64(n), w)
  }

  /** The head byte's branch of `doDecodeSync`. */
  function TokenAt(cfg: Config, key: bool, h: byte, rest: seq<byte>): (t: Token)
    ensures t.In(rest)
  {
    hide StringToken, BinaryToken, ExtensionToken, SizedToken, NumberToken;
    if h >= 0xe0 then Atom(JNumber(h - 0x100), 0)
    else if h < 0x80 then Atom(JNumber(h), 0)
    else if h < 0x90 then MapToken(cfg, h - 0x80, 0)
    else if h < 0xa0 then ArrayToken(cfg, h - 0x90, 0)
    else if h < 0xc0 then StringToken(cfg, key, rest, h - 0xa0, 0)
    else if h == 0xc0 then Atom(JNull, 0)
    else if h == 0xc2 then Atom(JBool(false), 0)
    else if h == 0xc3 then Atom(JBool(true), 0)
    else if h == 0xca then NumberToken(rest, 4, Tp.F64)
    else if h == 0xcb then NumberToken(rest, 8, Tp.F64)
    else if h == 0xcc then NumberToken(rest, 1, U64)
    else if h == 0xcd then NumberToken(rest, 2, U64)
    else if h == 0xce then NumberToken(rest, 4, U64)
    else if h == 0xcf then NumberToken(rest, 8, U64)
    else if h == 0xd0 then NumberToken(rest, 1, I64)
    else if h == 0xd1 then NumberToken(rest, 2, I64)
    else if h == 0xd2 then NumberToken(rest, 4, I64)
    else if h == 0xd3 then NumberToken(rest, 8, I64)
    else if h == 0xd9 then SizedToken(cfg, key, rest, 1, String)
    else if h == 0xda then SizedToken(cfg, key, rest, 2, String)
    else if h == 0xdb then SizedToken(cfg, key, rest, 4, String)
    else if h == 0xdc then SizedToken(cfg, key, rest, 2, Arrays)
    else if h == 0xdd then SizedToken(cfg, key, rest, 4, Arrays)
    else if h == 0xde then SizedToken(cfg, key, rest, 2, Maps)
    else if h == 0xdf then SizedToken(cfg, key, rest, 4, Maps)
    else if h == 0xc4 then SizedToken(cfg, key, rest, 1, Binary)
    else if h == 0xc5 then SizedToken(cfg, key, rest, 2, Binary)
    else if h == 0xc6 then SizedToken(cfg, key, rest, 4, Binary)
    else if 0xd4 <= h <= 0xd8 then ExtensionToken(cfg, rest, FixExt(h), 0)
    else if h == 0xc7 then SizedToken(cfg, key, rest, 1, Extension)
    else if h == 0xc8 then SizedToken(cfg, key, rest, 2, Extension)
    else if h == 0xc9 then SizedToken(cfg, key, rest, 4, Extension)
    else Wrong
  }

  // ---- the stack ----

  /** `"__proto__"` */
  const PROTO: text := [0x5f, 0x5f, 0x70, 0x72, 0x6f, 0x74, 0x6f, 0x5f, 0x5f]

  predicate KeyOk(o: Js) {
    (o.JString? && o.s != PROTO) || o.JNumber? || o.JFloat32? || o.JFloat64?
  }

  function NameOf(cfg: Config, o: Js): text { if o.JString? then o.s else cfg.nameOf(o) }

  /** `state.map[state.key] = object` */
  function Assign(props: seq<(text, Js)>, k: text, o: Js): (r: seq<(text, Js)>) {
    if props == [] then [(k, o)]
    else if props[0].0 == k then [(k, o)] + props[1..]
    else [props[0]] + Assign(props[1..], k, o)
  }

  datatype Fed = Finished(o: Js) | Going(stack: seq<State>) | Refused

  /** A finished object goes into the container on top of the stack, and so does every container it completes. */
  function Feed(cfg: Config, stack: seq<State>, o: Js): Fed
    decreases |stack|
  {
    if stack == [] then Finished(o)
    else
      var top, below := stack[|stack| - 1], stack[..|stack| - 1];
      match top
      case ArrayState(size, items) =>
        if |items| + 1 == size then Feed(cfg, below, JArray(items + [o]))
        else Going(below + [ArrayState(size, items + [o])])
      case MapState(size, None, readCount, props) =>
        if !KeyOk(o) then Refused else Going(below + [MapState(size, Some(NameOf(cfg, o)), readCount, props)])
      case MapState(size, Some(k), readCount, props) =>
        if readCount + 1 == size then Feed(cfg, below, JObject(Assign(props, k, o)))
        else Going(below + [MapState(size, None, readCount + 1, Assign(props, k, o))])
  }

  /** `stateIsMapKey` */
  predicate IsKey(stack: seq<State>) {
    stack != [] && var top := stack[|stack| - 1]; top.MapState? && top.key.None?
  }

  // ---- a whole object ----

  /** `Insufficient` says what is left unread and on the stack when the input ends. */
  datatype Outcome =
    | Object(o: Js, rest: seq<byte>) | Insufficient(rest: seq<byte>, stack: seq<State>) | Invalid | Unclear

  datatype Turned = Stop(out: Outcome) | On(rest: seq<byte>, stack: seq<State>)

  /** One round of the loop, on the unread input `rest` and the stack. */
  function TurnOf(cfg: Config, rest: seq<byte>, stack: seq<State>): (t: Turned)
    ensures t.On? ==> |t.rest| < |rest|
  {
    if rest == [] then Stop(Insufficient(rest, stack))
    else
      match TokenAt(cfg, IsKey(stack), rest[0], rest[1..])
      case More => Stop(Insufficient(rest, stack))
      case Wrong => Stop(Invalid)
      case Ragged => Stop(Unclear)
      case Open(st, used) => On(rest[1 + used..], stack + [st])
      case Atom(o, used) => Placed(cfg, rest[1 + used..], stack, o)
  }

  /** Where a round ends whose token is the object `o`. */
  function Placed(cfg: Config, rest: seq<byte>, stack: seq<State>, o: Js): (t: Turned)
    ensures t.On? ==> t.rest == rest
  {
    match Feed(cfg, stack, o)
    case Refused => Stop(Invalid)
    case Finished(r) => Stop(Object(r, rest))
    case Going(next) => On(rest, next)
  }

  /** What becomes of the unread input `rest` under the stack. */
  function Run(cfg: Config, rest: seq<byte>, stack: seq<State>): Outcome
    decreases |rest|
  {
    match TurnOf(cfg, rest, stack)
    case Stop(out) => out
    case On(r, st) => Run(cfg, r, st)
  }

  // ---- what a caller sees ----

  /** A result of `decode` and `decodeAsync`. */
  datatype Decoded = Value(o: Js) | TooShort | Malformed | ExtraBytes

  /** `decode`, as far as the key cache does not matter. */
  function Judge(run: Outcome): Option<Decoded> {
    match run
    case Object(o, rest) => Some(if rest == [] then Value(o) else ExtraBytes)
    case Insufficient(_, _) => Some(TooShort)
    case Invalid => Some(Malformed)
    case Unclear => None
  }

  /** `decodeAsync` on the buffers of a stream, with `unread` and the stack left over from before. */
  function Stream(cfg: Config, unread: seq<byte>, stack: seq<State>, pieces: seq<seq<byte>>): Option<Decoded>
    decreases |pieces|
  {
    if pieces == [] then Some(TooShort)
    else
      match Run(cfg, unread + pieces[0], stack)
      case Object(o, rest) => Some(if rest == [] && |pieces| == 1 then Value(o) else ExtraBytes)
      case Insufficient(r, st) => Stream(cfg, r, st, pieces[1..])
      case Invalid => Some(Malformed)
      case Unclear => None
  }
}
