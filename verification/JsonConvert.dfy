/** The parser callbacks of `util/mpjson.h` as methods that update their context and the output buffer in place. */
module JsonConvert {
  import opened Bytes
  import opened Msgpack
  import opened Sbuffer
  import opened Json

  lemma StoreBytes(n: nat)
    ensures Store(n, 4) == [n / 0x100_0000 % 256, n / 0x1_0000 % 256, n / 0x100 % 256, n % 256]
  {
    assert Store(n / 0x100_0000, 1) == [n / 0x100_0000 % 256];
    assert n / 0x100 / 0x100 == n / 0x1_0000 && n / 0x1_0000 / 0x100 == n / 0x100_0000;
    assert Store(n / 0x1_0000, 2) == Store(n / 0x100_0000, 1) + [n / 0x1_0000 % 256];
    assert Store(n / 0x100, 3) == Store(n / 0x1_0000, 2) + [n / 0x100 % 256];
  }

  class Converter {
    const max: nat
    const buffer: Buffer
    const count: array<nat>
    const bufN: array<nat>
    var deep: nat

    ghost predicate Apart()
      reads this, buffer
    {
      var mine: set<object?> := {count, bufN};
      count != bufN && buffer.data !in mine
    }

    ghost predicate Sound()
      reads this, buffer
    {
      Apart() && buffer.Valid() && (buffer.data != null || buffer.size == 0)
    }

    /** Ready for a callback. */
    ghost predicate Ready()
      reads this, buffer, buffer.data, count, bufN
    {
      Sound() && Abs().Valid(max)
    }

    ghost function Abs(): Conv
      requires buffer.Valid()
      reads this, buffer, buffer.data, count, bufN
    {
      Conv(buffer.Contents(), deep, count[..], bufN[..])
    }

    /** `mpjson_convert_t ctx = {0}` with a buffer of `alloc` bytes to begin with. */
    constructor (max: nat, alloc: nat)
      requires max > 0 && alloc < TWO_64
      ensures Ready() && this.max == max && Abs() == Initial(max)
      ensures fresh(buffer) && fresh(count) && fresh(bufN) && (buffer.data != null ==> fresh(buffer.data))
    {
      this.max := max;
      deep := 0;
      buffer := new Buffer(alloc, 0);
      count := new nat[max](_ => 0);
      bufN := new nat[max](_ => 0);
      new;
      assert count[..] == seq(max, _ => 0) && bufN[..] == seq(max, _ => 0);
    }

    /** One write to the buffer; nothing else of the context changes. */
    method Put(s: seq<byte>, memory: bool) returns (ok: bool)
      requires Sound() && buffer.size + |s| < TWO_64
      modifies buffer, buffer.data
      ensures Sound() && (buffer.data != null ==> buffer.data == old(buffer.data) || fresh(buffer.data))
      ensures memory ==> ok
      ensures Abs() == if ok then Append(old(Abs()), s) else old(Abs())
    {
      ok := buffer.Write(s, memory);
      assert count[..] == old(count[..]) && bufN[..] == old(bufN[..]);
    }

    method Count()
      requires Ready()
      modifies count
      ensures Ready() && Abs() == Bump(old(Abs()))
    {
      count[deep] := (count[deep] + 1) % TWO_32;
    }

    /** `reformat_null`, `_boolean`, `_integer` and `_double`: count the value, then write it. */
    method Scalar(e: Event, memory: bool) returns (ok: bool)
      requires Ready() && e.Wide() && (e.OnNull? || e.OnBoolean? || e.OnInteger? || e.OnDouble?)
      requires buffer.size + 9 < TWO_64
      modifies this, count, bufN, buffer, buffer.data
      ensures Ready() && (buffer.data != null ==> buffer.data == old(buffer.data) || fresh(buffer.data))
      ensures memory ==> ok
      ensures ok ==> Answer(ok, Abs()) == Handle(old(Abs()), e, max)
    {
      Count();
      match e
      case OnNull => ok := Put([0xc0], memory);
      case OnBoolean(b) => ok := Put([if b then 0xc3 else 0xc2], memory);
      case OnInteger(i) => ok := Put(PackSigned(i), memory);
      case OnDouble(bits) => ok := Put([0xcb] + Store(bits, 8), memory);
    }

    /** `mp_pack_strn`: two writes, each with its own answer to a request for memory. */
    method PutString(s: seq<byte>, memory: bool, more: bool) returns (ok: bool)
      requires Ready() && |s| < TWO_32 && buffer.size + 5 + |s| < TWO_64
      modifies buffer, buffer.data
      ensures Ready() && (buffer.data != null ==> buffer.data == old(buffer.data) || fresh(buffer.data))
      ensures memory && more ==> ok
      ensures ok ==> Abs() == Append(old(Abs()), PackStrHeader(|s|) + s)
    {
      ok := Put(PackStrHeader(|s|), memory);
      if ok && |s| > 0 { ok := Put(s, more); }
      assert old(buffer.Contents()) + PackStrHeader(|s|) + s == old(buffer.Contents()) + (PackStrHeader(|s|) + s);
    }

    /** `reformat_string` counts, `reformat_map_key` does not. */
    method Text(e: Event, memory: bool, more: bool) returns (ok: bool)
      requires Ready() && e.Wide() && (e.OnString? || e.OnMapKey?)
      requires buffer.size + 5 + |e.s| < TWO_64
      modifies this, count, bufN, buffer, buffer.data
      ensures Ready() && (buffer.data != null ==> buffer.data == old(buffer.data) || fresh(buffer.data))
      ensures memory && more ==> ok
      ensures ok ==> Answer(ok, Abs()) == Handle(old(Abs()), e, max)
    {
      if e.OnString? { Count(); }
      ok := PutString(e.s, memory, more);
    }

    /** `reformat_start_map` and `reformat_start_array` */
    method Open(e: Event, memory: bool) returns (ok: bool)
      requires Ready() && (e.OnStartMap? || e.OnStartArray?)
      requires buffer.size + 5 < TWO_64
      modifies this, count, bufN, buffer, buffer.data
      ensures buffer.Valid() && (buffer.data != null ==> buffer.data == old(buffer.data) || fresh(buffer.data))
      ensures ok ==> Ready()
      ensures ok || memory ==> Answer(ok, Abs()) == Handle(old(Abs()), e, max)
    {
      var header := if e.OnStartMap? then PackMapHeader(0x1_0000) else PackArrHeader(0x1_0000);
      ghost var started := Start(Abs(), header, max);
      assert |header| == 5 && started == Handle(Abs(), e, max);
      hide PackMapHeader, PackArrHeader, Handle;
      ok := EnterLevel();
      if !ok { return false; }
      hide Start;
      ok := Put(header, memory);
    }

    /** Count the container, and give its own count and offset a level, if there is one left. */
    method EnterLevel() returns (ok: bool)
      requires Ready()
      modifies this, count, bufN
      ensures Sound() && deep == old(deep) + 1 && (ok <==> deep < max)
      ensures forall h: seq<byte> ::
                (if ok then Answer(true, Append(Abs(), h)) else Answer(false, Abs())) == Start(old(Abs()), h, max)
    {
      Count();
      deep := deep + 1;
      if deep >= max { return false; }
      count[deep] := 0;
      bufN[deep] := buffer.size + 1;
      return true;
    }

    /** `reformat_end_map` and `reformat_end_array`: the count goes over the placeholder, wherever the buffer is now. */
    method Close(e: Event)
      requires Ready() && (e.OnEndMap? || e.OnEndArray?) && deep > 0
      modifies this, buffer.data
      ensures Ready() && buffer.data == old(buffer.data)
      ensures Answer(true, Abs()) == Handle(old(Abs()), e, max)
    {
      var at, n := bufN[deep], count[deep];
      StoreBytes(n);
      buffer.data[at], buffer.data[at + 1] := n / 0x100_0000 % 256, n / 0x1_0000 % 256;
      buffer.data[at + 2], buffer.data[at + 3] := n / 0x100 % 256, n % 256;
      deep := deep - 1;
      assert buffer.Contents() == Patched(old(buffer.Contents()), at, n);
    }
  }

  /** A bound on the bytes the events can add. */
  function Weight(es: seq<Event>): nat {
    if es == [] then 0
    else Weight(es[1..]) + if es[0].OnString? || es[0].OnMapKey? then 5 + |es[0].s| else 9
  }

  /**
    * `mpjson_json_to_mp` behind the parser: every event goes to its callback, up to the first that fails.  `memory` has
    * the answers to the requests for memory, two for each event.
    */
  method Convert(es: seq<Event>, max: nat, alloc: nat, memory: seq<(bool, bool)>) returns (ok: bool, out: seq<byte>)
    requires Stream(es, 0) && max > 0 && alloc < TWO_64 && Weight(es) < TWO_64 && |memory| == |es|
    ensures ok ==> Run(Initial(max), es, max).ok && out == Run(Initial(max), es, max).c.out
    ensures (forall i | 0 <= i < |es| :: memory[i].0 && memory[i].1) ==> (ok <==> Run(Initial(max), es, max).ok)
  {
    var c := new Converter(max, alloc);
    var rest := es;
    ok, out := true, [];
    while rest != []
      invariant |rest| <= |es| && c.max == max && c.Ready() && Stream(rest, c.deep)
      invariant fresh(c) && fresh(c.buffer) && fresh(c.count) && fresh(c.bufN)
      invariant c.buffer.data != null ==> fresh(c.buffer.data)
      invariant c.buffer.size + Weight(rest) < TWO_64
      invariant Run(Initial(max), es, max) == Run(c.Abs(), rest, max)
      decreases |rest|
    {
      var e := rest[0];
      ghost var before := c.Abs();
      assert e in rest;
      var (first, second) := memory[|es| - |rest|];
      ok := One(c, e, first, second);
      if !ok { return; }
      StreamRest(before, rest, max);
      SizeAfter(before, rest, max);
      rest := rest[1..];
    }
    if c.buffer.data != null { out := c.buffer.data[..c.buffer.size]; }
  }

  method One(c: Converter, e: Event, memory: bool, more: bool) returns (ok: bool)
    requires c.Ready() && e.Wide() && (e.OnEndMap? || e.OnEndArray? ==> c.deep > 0)
    requires c.buffer.size + (if e.OnString? || e.OnMapKey? then 5 + |e.s| else 9) < TWO_64
    modifies c, c.count, c.bufN, c.buffer, c.buffer.data
    ensures c.buffer.data != null ==> c.buffer.data == old(c.buffer.data) || fresh(c.buffer.data)
    ensures ok ==> c.Ready() && Answer(true, c.Abs()) == Handle(old(c.Abs()), e, c.max)
    ensures memory && more ==> (ok <==> Handle(old(c.Abs()), e, c.max).ok)
  {
    if e.OnEndMap? || e.OnEndArray? {
      c.Close(e);
      ok := true;
    } else if e.OnString? || e.OnMapKey? {
      ok := c.Text(e, memory, more);
    } else if e.OnStartMap? || e.OnStartArray? {
      ok := c.Open(e, memory);
    } else {
      ok := c.Scalar(e, memory);
    }
  }

  lemma SizeAfter(c: Conv, es: seq<Event>, max: nat)
    requires es != [] && c.Valid(max) && Stream(es, c.deep) && Handle(c, es[0], max).ok
    ensures |Handle(c, es[0], max).c.out| + Weight(es[1..]) <= |c.out| + Weight(es)
  {
  }
}
