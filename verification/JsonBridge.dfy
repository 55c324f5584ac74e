/** From MessagePack to JSON and back. */
module JsonBridge {
  import opened Bytes
  import opened Msgpack
  import opened Mpack
  import opened MpackAgree
  import opened MpackUnpacker
  import opened Json
  import opened JsonTheorems
  import opened JsonGenerate

  /** The calls that write a tree. */
  function Calls(v: Value): seq<Call>
    requires Tree(v)
    decreases v, 0
  {
    match v
    case Nil => [GenNull]
    case Bool(b) => [GenBool(b)]
    case Int(i) => [GenInteger(i)]
    case F64(bits) => [GenDouble(bits)]
    case Str(bytes) => [GenString(bytes)]
    case Arr(items) => [GenArrayOpen] + CallsAll(items, Item) + [GenArrayClose]
    case Map(flat) => [GenMapOpen] + CallsAll(flat, Key) + [GenMapClose]
  }

  function CallsAll(vs: seq<Value>, m: Slot): seq<Call>
    requires Trees(vs, m)
    decreases vs, 1
  {
    if vs == [] then [] else Calls(vs[0]) + CallsAll(vs[1..], After(m))
  }

  /** The generator takes each of the calls in turn. */
  predicate Takes(taste: Taste, calls: seq<Call>, cs: seq<Call>)
    decreases |cs|
  {
    cs != [] ==> taste(calls, cs[0]) && Takes(taste, calls + [cs[0]], cs[1..])
  }

  lemma {:induction false} TakesSplit(taste: Taste, calls: seq<Call>, a: seq<Call>, b: seq<Call>)
    requires Takes(taste, calls, a + b)
    ensures Takes(taste, calls, a) && Takes(taste, calls + a, b)
    decreases |a|
  {
    if a == [] {
      assert a + b == b && calls + a == calls;
    } else {
      assert (a + b)[0] == a[0] && (a + b)[1..] == a[1..] + b;
      TakesSplit(taste, calls + [a[0]], a[1..], b);
      assert calls + [a[0]] + a[1..] == calls + a;
    }
  }

  /** A tree that is read is written, call by call. */
  lemma {:induction false} TreeCalls(data: seq<byte>, pt: nat, v: Value, calls: seq<Call>, taste: Taste)
    requires Tree(v) && Walk(data, pt).Got? && Walk(data, pt).v == v && Takes(taste, calls, Calls(v))
    ensures ToJson(data, pt, calls, taste) == Made(true, calls + Calls(v), Walk(data, pt).pt)
    decreases v, 0
  {
    hide Next;
    var p := Next(data, pt).pt;
    match v
    case Arr(items) => ContainerCalls(data, p, items, Item, calls, taste, GenArrayOpen, GenArrayClose);
    case Map(flat) => ContainerCalls(data, p, flat, Key, calls, taste, GenMapOpen, GenMapClose);
    case _ =>
  }

  lemma {:induction false} ContainerCalls(data: seq<byte>, p: nat, vs: seq<Value>, m: Slot, calls: seq<Call>,
                                          taste: Taste, open: Call, close: Call)
    requires Trees(vs, m) && p <= |data| && WalkN(data, p, |vs|).Got? && WalkN(data, p, |vs|).v == vs
    requires Takes(taste, calls, [open] + CallsAll(vs, m) + [close])
    ensures Container(data, p, calls, taste, open, |vs|, close)
         == Made(true, calls + ([open] + CallsAll(vs, m) + [close]), WalkN(data, p, |vs|).pt)
    decreases vs, 2
  {
    hide WalkN, ToJsonN, Trees, CallsAll;
    var cs := CallsAll(vs, m);
    assert [open] + cs + [close] == [open] + (cs + [close]);
    TakesSplit(taste, calls, [open], cs + [close]);
    TakesSplit(taste, calls + [open], cs, [close]);
    ItemCalls(data, p, vs, m, calls + [open], taste);
    assert calls + [open] + cs + [close] == calls + ([open] + cs + [close]);
  }

  lemma {:induction false} ItemCalls(data: seq<byte>, pt: nat, vs: seq<Value>, m: Slot, calls: seq<Call>, taste: Taste)
    requires Trees(vs, m) && pt <= |data| && WalkN(data, pt, |vs|).Got? && WalkN(data, pt, |vs|).v == vs
    requires Takes(taste, calls, CallsAll(vs, m))
    ensures ToJsonN(data, pt, calls, taste, |vs|) == Made(true, calls + CallsAll(vs, m), WalkN(data, pt, |vs|).pt)
    decreases vs, 1
  {
    hide Walk, ToJson, Tree, Calls, Trees;
    if vs == [] {
      assert calls + CallsAll(vs, m) == calls;
    } else {
      TreesSplit(vs, m);
      var v, rest := vs[0], vs[1..];
      assert vs == [v] + rest;
      var a, b := Calls(v), CallsAll(rest, After(m));
      assert CallsAll(vs, m) == a + b;
      hide CallsAll;
      TakesSplit(taste, calls, a, b);
      hide Takes;
      WalkedFirst(data, pt, vs);
      var p := Walk(data, pt).pt;
      hide WalkN;
      TreeCalls(data, pt, v, calls, taste);
      ItemCalls(data, p, rest, After(m), calls + a, taste);
      assert calls + a + b == calls + (a + b);
    }
  }

  // ---- the text in between ----

  /** The slot behind a value written into the innermost container. */
  function Advance(stack: seq<Slot>): seq<Slot> {
    if stack == [] then [] else stack[..|stack| - 1] + [After(stack[|stack| - 1])]
  }

  /** The parser events of a JSON text that the calls wrote: strings in a key's place become keys. */
  function Reparse(cs: seq<Call>, stack: seq<Slot>): Option<seq<Event>> {
    if cs == [] then Some([])
    else
      var rest := cs[1..];
      match cs[0]
      case GenNull => Then(OnNull, Reparse(rest, Advance(stack)))
      case GenBool(b) => Then(OnBoolean(b), Reparse(rest, Advance(stack)))
      case GenInteger(i) => Then(OnInteger(i), Reparse(rest, Advance(stack)))
      case GenDouble(bits) => Then(OnDouble(bits), Reparse(rest, Advance(stack)))
      case GenString(s) =>
        Then(if stack != [] && stack[|stack| - 1].Key? then OnMapKey(s) else OnString(s), Reparse(rest, Advance(stack)))
      case GenArrayOpen => Then(OnStartArray, Reparse(rest, Advance(stack) + [Item]))
      case GenMapOpen => Then(OnStartMap, Reparse(rest, Advance(stack) + [Key]))
      case GenArrayClose => if stack == [] then None else Then(OnEndArray, Reparse(rest, stack[..|stack| - 1]))
      case GenMapClose => if stack == [] then None else Then(OnEndMap, Reparse(rest, stack[..|stack| - 1]))
      case GenNumber(_) => None
      case GenFloat(_) => None
  }

  function Then(e: Event, es: Option<seq<Event>>): Option<seq<Event>> {
    match es case None => None case Some(s) => Some([e] + s)
  }

  function Before(es: seq<Event>, t: Option<seq<Event>>): Option<seq<Event>> {
    match t case None => None case Some(s) => Some(es + s)
  }

  /** The events of what a tree in the place `stack` wrote. */
  function EventsAt(v: Value, stack: seq<Slot>): seq<Event>
    requires Tree(v)
  {
    if v.Str? && stack != [] && stack[|stack| - 1].Key? then [OnMapKey(v.bytes)] else Events(v)
  }

  lemma {:induction false} TreeReparse(v: Value, rest: seq<Call>, stack: seq<Slot>)
    requires Tree(v)
    ensures Reparse(Calls(v) + rest, stack) == Before(EventsAt(v, stack), Reparse(rest, Advance(stack)))
    decreases v, 0
  {
    match v
    case Arr(items) => ContainerReparse(items, Item, rest, stack, GenArrayOpen, GenArrayClose);
    case Map(flat) => ContainerReparse(flat, Key, rest, stack, GenMapOpen, GenMapClose);
    case _ =>
      assert (Calls(v) + rest)[1..] == rest;
  }

  lemma OpenReparse(open: Call, cs: seq<Call>, stack: seq<Slot>)
    requires open.GenArrayOpen? || open.GenMapOpen?
    ensures Reparse([open] + cs, stack)
         == if open.GenArrayOpen? then Then(OnStartArray, Reparse(cs, Advance(stack) + [Item]))
            else Then(OnStartMap, Reparse(cs, Advance(stack) + [Key]))
  {
    assert ([open] + cs)[1..] == cs;
  }

  lemma CloseReparse(close: Call, cs: seq<Call>, stack: seq<Slot>, m: Slot)
    requires close.GenArrayClose? || close.GenMapClose?
    ensures Reparse([close] + cs, stack + [m])
         == Then(if close.GenArrayClose? then OnEndArray else OnEndMap, Reparse(cs, stack))
  {
    assert ([close] + cs)[1..] == cs && (stack + [m])[..|stack|] == stack;
  }

  lemma AroundEvents(a: Event, es: seq<Event>, b: Event, t: Option<seq<Event>>)
    ensures Then(a, Before(es, Then(b, t))) == Before([a] + es + [b], t)
  {
    if t.Some? { assert [a] + (es + ([b] + t.value)) == [a] + es + [b] + t.value; }
  }

  lemma {:induction false} ContainerReparse(vs: seq<Value>, m: Slot, rest: seq<Call>, stack: seq<Slot>, open: Call,
                                            close: Call)
    requires Trees(vs, m)
    requires (open.GenArrayOpen? && close.GenArrayClose? && m.Item?)
          || (open.GenMapOpen? && close.GenMapClose? && m.Key?)
    ensures
      var (a, b) := if open.GenArrayOpen? then (OnStartArray, OnEndArray) else (OnStartMap, OnEndMap);
      Reparse([open] + CallsAll(vs, m) + [close] + rest, stack)
      == Before([a] + EventsAll(vs, m) + [b], Reparse(rest, Advance(stack)))
    decreases vs, 2
  {
    hide Reparse, CallsAll, EventsAll, Trees, Then, Before, Advance;
    var cs, es := CallsAll(vs, m), EventsAll(vs, m);
    var (a, b) := if open.GenArrayOpen? then (OnStartArray, OnEndArray) else (OnStartMap, OnEndMap);
    var inner := Advance(stack);
    assert [open] + cs + [close] + rest == [open] + (cs + ([close] + rest));
    OpenReparse(open, cs + ([close] + rest), stack);
    ItemsReparse(vs, m, [close] + rest, inner);
    CloseReparse(close, rest, inner, AfterAll(m, |vs|));
    AroundEvents(a, es, b, Reparse(rest, inner));
  }

  function AfterAll(m: Slot, n: nat): Slot
    decreases n
  {
    if n == 0 then m else AfterAll(After(m), n - 1)
  }

  lemma {:induction false} ItemsReparse(vs: seq<Value>, m: Slot, rest: seq<Call>, stack: seq<Slot>)
    requires Trees(vs, m)
    ensures Reparse(CallsAll(vs, m) + rest, stack + [m])
         == Before(EventsAll(vs, m), Reparse(rest, stack + [AfterAll(m, |vs|)]))
    decreases vs, 1
  {
    hide Tree, Trees, Calls, CallsAll, Reparse, Events, EventsAll, EventsAt, Advance, Before;
    var t := Reparse(rest, stack + [AfterAll(m, |vs|)]);
    if vs == [] {
      NoChild(m);
      assert CallsAll(vs, m) + rest == rest;
      BeforeNothing(t);
    } else {
      TreesSplit(vs, m);
      var v, kids := vs[0], vs[1..];
      var a, b, st := Calls(v), CallsAll(kids, After(m)), stack + [m];
      FirstChild(vs, m, stack);
      assert a + b + rest == a + (b + rest);
      TreeReparse(v, b + rest, st);
      AdvanceTop(stack, m);
      ItemsReparse(kids, After(m), rest, stack);
      BeforeBoth(EventsAt(v, st), EventsAll(kids, After(m)), t);
    }
  }

  lemma NoChild(m: Slot)
    ensures CallsAll([], m) == [] && EventsAll([], m) == []
  {
  }

  lemma BeforeNothing(t: Option<seq<Event>>)
    ensures Before([], t) == t
  {
    if t.Some? { assert [] + t.value == t.value; }
  }

  lemma BeforeBoth(a: seq<Event>, b: seq<Event>, t: Option<seq<Event>>)
    ensures Before(a, Before(b, t)) == Before(a + b, t)
  {
    if t.Some? { assert a + (b + t.value) == a + b + t.value; }
  }

  lemma AdvanceTop(stack: seq<Slot>, m: Slot)
    ensures Advance(stack + [m]) == stack + [After(m)]
  {
  }

  lemma FirstChild(vs: seq<Value>, m: Slot, stack: seq<Slot>)
    requires vs != [] && Trees(vs, m)
    ensures CallsAll(vs, m) == Calls(vs[0]) + CallsAll(vs[1..], After(m))
    ensures EventsAll(vs, m) == EventsAt(vs[0], stack + [m]) + EventsAll(vs[1..], After(m))
  {
  }

  lemma {:induction false} TreePackable(v: Value)
    requires Tree(v)
    ensures Packable(v)
    decreases v, 0
  {
    match v
    case Arr(items) => TreesPackable(items, Item);
    case Map(flat) => TreesPackable(flat, Key);
    case _ =>
  }

  lemma {:induction false} TreesPackable(vs: seq<Value>, m: Slot)
    requires Trees(vs, m)
    ensures forall x | x in vs :: Packable(x)
    decreases vs, 1
  {
    if vs != [] {
      TreePackable(vs[0]);
      TreesPackable(vs[1..], After(m));
      assert forall x | x in vs :: x == vs[0] || x in vs[1..];
    }
  }

  /**
    * A tree goes to JSON and comes back: its packed bytes make the calls that write it, and what the parser reports of
    * the text is turned into bytes that decode to the same tree.
    */
  lemma ThereAndBack(v: Value, taste: Taste, max: nat)
    requires Tree(v) && Depth(v) < max && Takes(taste, [], Calls(v))
    ensures Packable(v)
    ensures
      var made := ToJson(Pack(v), 0, [], taste);
      && made.ok && made.pt == |Pack(v)|
      && Reparse(made.calls, []) == Some(Events(v))
      && Stream(Events(v), 0)
      && var r := Run(Initial(max), Events(v), max);
      r.ok && Walk(r.c.out, 0) == Got(v, |r.c.out|)
  {
    TreePackable(v);
    hide Walk, Pack, Events, Run, ToJson;
    assert Pack(v) + [] == Pack(v);
    PackedWalk(v, []);
    TreeCalls(Pack(v), 0, v, [], taste);
    assert [] + Calls(v) == Calls(v) == Calls(v) + [];
    TreeReparse(v, [], []);
    assert Events(v) + [] == Events(v);
    Converted(v, max);
  }
}
