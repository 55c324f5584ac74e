/** JSON trees as MessagePack values, the parser events of a tree, and the callbacks that turn events into bytes. */
module Json {
  import opened Bytes
  import opened Msgpack
  import opened Mpack

  /** Which child comes next: an item of an array, or in turn the keys and the values of a map. */
  datatype Slot = Item | Key | Val

  function After(m: Slot): Slot { if m.Item? then Item else if m.Key? then Val else Key }

  /** The values that JSON can hold: 64-bit signed integers, and maps with string keys only. */
  predicate Tree(v: Value)
    decreases v, 0
  {
    match v
    case Nil => true
    case Bool(_) => true
    case Int(i) => -TWO_63 <= i < TWO_63
    case F64(bits) => bits < TWO_64
    case Str(bytes) => |bytes| < TWO_32
    case Arr(items) => |items| < TWO_32 && Trees(items, Item)
    case Map(flat) => |flat| % 2 == 0 && |flat| / 2 < TWO_32 && Trees(flat, Key)
    case _ => false
  }

  predicate Trees(vs: seq<Value>, m: Slot)
    decreases vs, 1
  {
    vs != [] ==> Tree(vs[0]) && (m.Key? ==> vs[0].Str?) && Trees(vs[1..], After(m))
  }

  function Depth(v: Value): nat
    decreases v, 0
  {
    match v
    case Arr(items) => 1 + DepthAll(items)
    case Map(flat) => 1 + DepthAll(flat)
    case _ => 0
  }

  function DepthAll(vs: seq<Value>): nat
    decreases vs, 1
  {
    if vs == [] then 0
    else
      var a, b := Depth(vs[0]), DepthAll(vs[1..]);
      if a > b then a else b
  }

  // ---- what the parser reports ----

  datatype Event =
    | OnNull | OnBoolean(b: bool) | OnInteger(i: int) | OnDouble(bits: nat) | OnString(s: seq<byte>)
    | OnStartMap | OnMapKey(s: seq<byte>) | OnEndMap | OnStartArray | OnEndArray
  {
    /** Integers, doubles and lengths are as wide as the callback's parameters. */
    predicate Wide() {
      match this
      case OnInteger(i) => -TWO_63 <= i < TWO_63
      case OnDouble(bits) => bits < TWO_64
      case OnString(s) => |s| < TWO_32
      case OnMapKey(s) => |s| < TWO_32
      case _ => true
    }
  }

  function Events(v: Value): seq<Event>
    requires Tree(v)
    decreases v, 0
  {
    match v
    case Nil => [OnNull]
    case Bool(b) => [OnBoolean(b)]
    case Int(i) => [OnInteger(i)]
    case F64(bits) => [OnDouble(bits)]
    case Str(bytes) => [OnString(bytes)]
    case Arr(items) => [OnStartArray] + EventsAll(items, Item) + [OnEndArray]
    case Map(flat) => [OnStartMap] + EventsAll(flat, Key) + [OnEndMap]
  }

  function EventsAll(vs: seq<Value>, m: Slot): seq<Event>
    requires Trees(vs, m)
    decreases vs, 1
  {
    if vs == [] then []
    else (if m.Key? then [OnMapKey(vs[0].bytes)] else Events(vs[0])) + EventsAll(vs[1..], After(m))
  }

  // ---- the callbacks ----

  /** `mpjson_convert_t`: the bytes written, the nesting, and per level a count and the offset it belongs to. */
  datatype Conv = Conv(out: seq<byte>, deep: nat, count: seq<nat>, bufN: seq<nat>) {
    /** What the callbacks rely on: the arrays are there, and every open container has its count bytes. */
    predicate Valid(max: nat) {
      && deep < max == |count| == |bufN|
      && forall j | 1 <= j <= deep :: 1 <= bufN[j] && bufN[j] + 4 <= |out|
    }
  }

  /** `mpjson_convert_t ctx = {0}` */
  function Initial(max: nat): (c: Conv)
    requires max > 0
    ensures c.Valid(max)
  {
    Conv([], 0, seq(max, _ => 0), seq(max, _ => 0))
  }

  datatype Answer = Answer(ok: bool, c: Conv)

  function Bump(c: Conv): Conv
    requires c.deep < |c.count|
  {
    c.(count := c.count[c.deep := (c.count[c.deep] + 1) % TWO_32])
  }

  function Append(c: Conv, s: seq<byte>): Conv { c.(out := c.out + s) }

  /** `reformat_start_map` and `reformat_start_array`: a header of five bytes whose count is a placeholder. */
  function Start(c: Conv, header: seq<byte>, max: nat): Answer
    requires c.Valid(max)
  {
    var b := Bump(c);
    if c.deep + 1 >= max then Answer(false, b.(deep := c.deep + 1))
    else
      var d := c.deep + 1;
      Answer(true, Conv(c.out + header, d, b.count[d := 0], b.bufN[d := |c.out| + 1]))
  }

  function Patched(s: seq<byte>, at: nat, n: nat): seq<byte>
    requires at + 4 <= |s|
  {
    s[..at] + Store(n, 4) + s[at + 4..]
  }

  /** `reformat_end_map` and `reformat_end_array` */
  function End(c: Conv, max: nat): Conv
    requires c.Valid(max) && c.deep > 0
  {
    Conv(Patched(c.out, c.bufN[c.deep], c.count[c.deep]), c.deep - 1, c.count, c.bufN)
  }

  function Handle(c: Conv, e: Event, max: nat): (a: Answer)
    requires c.Valid(max) && e.Wide() && ((e.OnEndMap? || e.OnEndArray?) ==> c.deep > 0)
    ensures a.ok ==> a.c.Valid(max)
  {
    match e
    case OnNull => Answer(true, Append(Bump(c), [0xc0]))
    case OnBoolean(b) => Answer(true, Append(Bump(c), [if b then 0xc3 else 0xc2]))
    case OnInteger(i) => Answer(true, Append(Bump(c), PackSigned(i)))
    case OnDouble(bits) => Answer(true, Append(Bump(c), [0xcb] + Store(bits, 8)))
    case OnString(s) => Answer(true, Append(Bump(c), PackStrHeader(|s|) + s))
    case OnMapKey(s) => Answer(true, Append(c, PackStrHeader(|s|) + s))
    case OnStartMap => Start(c, PackMapHeader(0x1_0000), max)
    case OnStartArray => Start(c, PackArrHeader(0x1_0000), max)
    case OnEndMap => Answer(true, End(c, max))
    case OnEndArray => Answer(true, End(c, max))
  }

  /** The nesting level after the events, if every end has its start. */
  function Level(es: seq<Event>, level: nat): Option<nat> {
    if es == [] then Some(level)
    else if es[0].OnStartMap? || es[0].OnStartArray? then Level(es[1..], level + 1)
    else if es[0].OnEndMap? || es[0].OnEndArray? then if level == 0 then None else Level(es[1..], level - 1)
    else Level(es[1..], level)
  }

  /** Event streams as the parser makes them. */
  predicate Stream(es: seq<Event>, level: nat) {
    Level(es, level).Some? && forall e | e in es :: e.Wide()
  }

  /** All callbacks in turn; the parser stops at the first that fails. */
  function Run(c: Conv, es: seq<Event>, max: nat): (a: Answer)
    requires c.Valid(max) && Stream(es, c.deep)
    ensures a.ok ==> a.c.Valid(max)
    decreases |es|
  {
    if es == [] then Answer(true, c)
    else
      var a := Handle(c, es[0], max);
      if a.ok then Run(a.c, es[1..], max) else a
  }

  lemma StreamRest(c: Conv, es: seq<Event>, max: nat)
    requires es != [] && c.Valid(max) && Stream(es, c.deep) && Handle(c, es[0], max).ok
    ensures Stream(es[1..], Handle(c, es[0], max).c.deep)
  {
  }
}
