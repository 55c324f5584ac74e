/** The callbacks leave bytes that decode to the tree whose events they were given. */
module JsonTheorems {
  import opened Bytes
  import opened Msgpack
  import opened Mpack
  import opened MpackAgree
  import opened MpackRoundTrip
  import opened Json

  /** The bytes of a tree as the callbacks leave them: containers have 32-bit counts. */
  function Encoded(v: Value): seq<byte>
    requires Tree(v)
    decreases v, 0
  {
    match v
    case Arr(items) => [0xdd] + Store(|items|, 4) + EncodedAll(items, Item)
    case Map(flat) => [0xdf] + Store(|flat| / 2, 4) + EncodedAll(flat, Key)
    case _ => Pack(v)
  }

  function EncodedAll(vs: seq<Value>, m: Slot): seq<byte>
    requires Trees(vs, m)
    decreases vs, 1
  {
    if vs == [] then [] else Encoded(vs[0]) + EncodedAll(vs[1..], After(m))
  }

  // ---- decoding ----

  lemma {:induction false} EncodedWalk(data: seq<byte>, pt: nat, v: Value)
    requires Tree(v) && Stands(data, pt, Encoded(v))
    ensures Walk(data, pt) == Got(v, pt + |Encoded(v)|)
    decreases v, 0
  {
    hide Stands, Next, Pack, WalkN, EncodedAll, Store, Trees;
    match v
    case Arr(items) =>
      var h := [0xdd] + Store(|items|, 4);
      StandsSplit(data, pt, h, EncodedAll(items, Item));
      CountRead(data, pt, 0xdd, |items|);
      EncodedWalkAll(data, pt + |h|, items, Item);
    case Map(flat) =>
      var h := [0xdf] + Store(|flat| / 2, 4);
      StandsSplit(data, pt, h, EncodedAll(flat, Key));
      CountRead(data, pt, 0xdf, |flat| / 2);
      EncodedWalkAll(data, pt + |h|, flat, Key);
    case _ =>
      hide Walk;
      RoundTrip(data, pt, v);
  }

  lemma CountRead(data: seq<byte>, pt: nat, tag: byte, n: nat)
    requires n < TWO_32 && (tag == 0xdd || tag == 0xdf) && Stands(data, pt, [tag] + Store(n, 4))
    ensures Next(data, pt) == Read(if tag == 0xdd then OArr(n) else OMap(n), pt + 5)
  {
    Pow256Values();
    ReadHeader(data, pt, [tag] + Store(n, 4), n, 4);
  }

  lemma {:induction false} EncodedWalkAll(data: seq<byte>, pt: nat, vs: seq<Value>, m: Slot)
    requires Trees(vs, m) && Stands(data, pt, EncodedAll(vs, m))
    ensures pt <= |data| && WalkN(data, pt, |vs|) == Got(vs, pt + |EncodedAll(vs, m)|)
    decreases vs, 1
  {
    hide Stands, Walk, WalkN, Encoded, Tree, Trees;
    StandsIn(data, pt, EncodedAll(vs, m));
    if vs == [] {
      NothingToWalk(data, pt);
    } else {
      var v, rest := vs[0], vs[1..];
      TreesSplit(vs, m);
      assert vs == [v] + rest;
      var s, t := Encoded(v), EncodedAll(rest, After(m));
      assert EncodedAll(vs, m) == s + t;
      hide EncodedAll;
      StandsSplit(data, pt, s, t);
      EncodedWalk(data, pt, v);
      EncodedWalkAll(data, pt + |s|, rest, After(m));
      WalkStep(data, pt, v, pt + |s|, rest, pt + |s| + |t|);
    }
  }

  lemma TreesSplit(vs: seq<Value>, m: Slot)
    requires vs != [] && Trees(vs, m)
    ensures Tree(vs[0]) && (m.Key? ==> vs[0].Str?) && Trees(vs[1..], After(m))
  {
  }

  // ---- writing ----

  /**
    * From `c` to `d` the bytes `s` were appended and `k` values counted on the current level; outer levels are
    * untouched.
    */
  predicate Grew(c: Conv, d: Conv, s: seq<byte>, k: nat, max: nat) {
    && c.deep == d.deep < max == |c.count| == |c.bufN| == |d.count| == |d.bufN|
    && d.out == c.out + s
    && d.count[..c.deep] == c.count[..c.deep]
    && d.count[c.deep] % TWO_32 == (c.count[c.deep] + k) % TWO_32
    && d.count[c.deep] < TWO_32
    && d.bufN[..c.deep + 1] == c.bufN[..c.deep + 1]
  }

  lemma GrewMore(c: Conv, d: Conv, e: Conv, s: seq<byte>, t: seq<byte>, k: nat, l: nat, max: nat)
    requires Grew(c, d, s, k, max) && Grew(d, e, t, l, max)
    ensures Grew(c, e, s + t, k + l, max)
  {
    assert c.out + s + t == c.out + (s + t);
    CountedOn(c.count[c.deep], d.count[c.deep], k, l);
  }

  lemma CountedOn(a: nat, b: nat, k: nat, l: nat)
    requires b % TWO_32 == (a + k) % TWO_32
    ensures (b + l) % TWO_32 == (a + (k + l)) % TWO_32
  {
    var p, q := b / TWO_32, (a + k) / TWO_32;
    assert b == p * TWO_32 + b % TWO_32 && a + k == q * TWO_32 + (a + k) % TWO_32;
  }

  lemma {:induction false} LevelConcat(a: seq<Event>, b: seq<Event>, level: nat)
    ensures Level(a + b, level) == match Level(a, level) case None => None case Some(l) => Level(b, l)
    decreases |a|
  {
    if a == [] {
      assert a + b == b;
    } else {
      assert (a + b)[1..] == a[1..] + b;
      assert (a + b)[0] == a[0];
      if !(a[0].OnEndMap? || a[0].OnEndArray?) || level > 0 {
        var opens, closes := a[0].OnStartMap? || a[0].OnStartArray?, a[0].OnEndMap? || a[0].OnEndArray?;
        LevelConcat(a[1..], b, if opens then level + 1 else if closes then level - 1 else level);
      }
    }
  }

  /** A run in two parts. */
  lemma {:induction false} RunConcat(c: Conv, a: seq<Event>, b: seq<Event>, max: nat)
    requires c.Valid(max) && Stream(a, c.deep) && Stream(a + b, c.deep)
    ensures
      var r := Run(c, a, max);
      if r.ok then Stream(b, r.c.deep) && Run(c, a + b, max) == Run(r.c, b, max) else Run(c, a + b, max) == r
    decreases |a|
  {
    assert forall e | e in b :: e in a + b;
    if a == [] {
      assert a + b == b;
    } else {
      assert (a + b)[1..] == a[1..] + b;
      assert (a + b)[0] == a[0];
      var h := Handle(c, a[0], max);
      if h.ok { RunConcat(h.c, a[1..], b, max); }
    }
  }

  /** The values among the children: all items of an array, every second child of a map. */
  function Counted(vs: seq<Value>, m: Slot): (n: nat)
    ensures n == if m.Item? then |vs| else if m.Key? then |vs| / 2 else (|vs| + 1) / 2
  {
    if vs == [] then 0 else (if m.Key? then 0 else 1) + Counted(vs[1..], After(m))
  }

  /** The events of a tree are balanced. */
  lemma {:induction false} EventsBalanced(v: Value, level: nat)
    requires Tree(v)
    ensures Level(Events(v), level) == Some(level) && Stream(Events(v), level)
    decreases v, 0
  {
    match v
    case Arr(items) =>
      EventsBalancedAll(items, Item, level + 1);
      Nested(OnStartArray, EventsAll(items, Item), OnEndArray, level);
    case Map(flat) =>
      EventsBalancedAll(flat, Key, level + 1);
      Nested(OnStartMap, EventsAll(flat, Key), OnEndMap, level);
    case _ =>
  }

  lemma Nested(a: Event, es: seq<Event>, b: Event, level: nat)
    requires Level(es, level + 1) == Some(level + 1) && Stream(es, level + 1)
    requires (a == OnStartArray && b == OnEndArray) || (a == OnStartMap && b == OnEndMap)
    ensures Level([a] + es + [b], level) == Some(level) && Stream([a] + es + [b], level)
    ensures Stream(es + [b], level + 1)
  {
    assert [a] + es + [b] == [a] + (es + [b]);
    LevelConcat(es, [b], level + 1);
    assert ([a] + (es + [b]))[1..] == es + [b];
    assert Level([b], level + 1) == Some(level);
    forall e | e in [a] + es + [b] ensures e.Wide() {
      assert e == a || e in es || e == b;
    }
  }

  lemma {:induction false} EventsBalancedAll(vs: seq<Value>, m: Slot, level: nat)
    requires Trees(vs, m)
    ensures Level(EventsAll(vs, m), level) == Some(level) && Stream(EventsAll(vs, m), level)
    decreases vs, 1
  {
    if vs != [] {
      var a := if m.Key? then [OnMapKey(vs[0].bytes)] else Events(vs[0]);
      var b := EventsAll(vs[1..], After(m));
      EventsBalanced(vs[0], level);
      EventsBalancedAll(vs[1..], After(m), level);
      LevelConcat(a, b, level);
      assert m.Key? ==> Level(a, level) == Some(level);
    }
  }

  /** A container: header with a placeholder, its children, and the count written over the placeholder. */
  lemma ContainerRun(c: Conv, a: Event, es: seq<Event>, b: Event, kids: seq<byte>, n: nat, max: nat)
    requires c.Valid(max) && c.deep + 1 < max && n < TWO_32
    requires Level(es, c.deep + 1) == Some(c.deep + 1) && Stream(es, c.deep + 1)
    requires (a == OnStartArray && b == OnEndArray) || (a == OnStartMap && b == OnEndMap)
    requires
      var c1 := Handle(c, a, max).c;
      var r := Run(c1, es, max);
      r.ok && Grew(c1, r.c, kids, n, max)
    ensures Stream([a] + es + [b], c.deep)
    ensures
      var r := Run(c, [a] + es + [b], max);
      r.ok && Grew(c, r.c, [if a == OnStartArray then 0xdd else 0xdf] + Store(n, 4) + kids, 1, max)
  {
    hide Run, Handle, Store, End;
    Nested(a, es, b, c.deep);
    var tag := if a == OnStartArray then 0xdd else 0xdf;
    var c1 := Handle(c, a, max).c;
    StartOpens(c, a, tag, max);
    RunConcat(c1, es, [b], max);
    var c2 := Run(c1, es, max).c;
    assert [a] + es + [b] == [a] + (es + [b]);
    RunFirst(c, a, es + [b], max);
    RunEnd(c2, b, max);
    EndPatches(c, tag, c1, c2, kids, n, max);
  }

  lemma RunFirst(c: Conv, a: Event, es: seq<Event>, max: nat)
    requires c.Valid(max) && Stream([a] + es, c.deep) && a.Wide() && (a == OnStartArray || a == OnStartMap)
    requires Handle(c, a, max).ok && Stream(es, Handle(c, a, max).c.deep)
    ensures Run(c, [a] + es, max) == Run(Handle(c, a, max).c, es, max)
  {
    hide Handle, Stream;
    assert ([a] + es)[1..] == es;
  }

  lemma StartOpens(c: Conv, a: Event, tag: byte, max: nat)
    requires c.Valid(max) && c.deep + 1 < max
    requires (a == OnStartArray && tag == 0xdd) || (a == OnStartMap && tag == 0xdf)
    ensures Handle(c, a, max).ok && Opened(c, Handle(c, a, max).c, tag, max)
  {
  }

  lemma RunEnd(c: Conv, b: Event, max: nat)
    requires c.Valid(max) && c.deep > 0 && (b == OnEndArray || b == OnEndMap)
    ensures Stream([b], c.deep) && Run(c, [b], max) == Answer(true, End(c, max))
  {
    assert [b][1..] == [];
    assert Level([b], c.deep) == Level([b][1..], c.deep - 1);
    assert Run(c, [b], max) == Run(Handle(c, b, max).c, [b][1..], max);
  }

  /** What a start event sets up. */
  predicate Opened(c: Conv, c1: Conv, tag: byte, max: nat) {
    && c.deep + 1 == c1.deep < max == |c.count| == |c.bufN| == |c1.count| == |c1.bufN|
    && c1.out == c.out + ([tag] + Store(0x1_0000, 4))
    && c1.count[c1.deep] == 0 && c1.bufN[c1.deep] == |c.out| + 1
    && c1.count[c.deep] == (c.count[c.deep] + 1) % TWO_32
    && c1.count[..c.deep] == c.count[..c.deep]
    && c1.bufN[..c1.deep] == c.bufN[..c1.deep]
  }

  lemma EndPatches(c: Conv, tag: byte, c1: Conv, c2: Conv, kids: seq<byte>, n: nat, max: nat)
    requires n < TWO_32 && Opened(c, c1, tag, max) && c2.Valid(max) && Grew(c1, c2, kids, n, max)
    ensures Grew(c, End(c2, max), [tag] + Store(n, 4) + kids, 1, max)
  {
    EndCounts(c, tag, c1, c2, kids, n, max);
    PatchedHeader(c.out, tag, kids, n);
    hide Patched, Store;
  }

  /** What an end event finds and keeps in the two arrays. */
  lemma EndCounts(c: Conv, tag: byte, c1: Conv, c2: Conv, kids: seq<byte>, n: nat, max: nat)
    requires n < TWO_32 && Opened(c, c1, tag, max) && c2.Valid(max) && Grew(c1, c2, kids, n, max)
    ensures
      var d := c.deep + 1;
      && c2.count[d] == n && c2.bufN[d] == |c.out| + 1
      && c2.count[c.deep] == (c.count[c.deep] + 1) % TWO_32
      && c2.count[..c.deep] == c.count[..c.deep] && c2.bufN[..d] == c.bufN[..d]
  {
    hide Store;
    var d := c.deep + 1;
    assert c2.bufN[d] == c2.bufN[..d + 1][d] == c1.bufN[..d + 1][d];
    assert c2.count[c.deep] == c2.count[..d][c.deep] == c1.count[..d][c.deep];
    assert c2.count[..c.deep] == c2.count[..d][..c.deep] == c1.count[..d][..c.deep] == c1.count[..c.deep];
    assert c2.bufN[..d] == c2.bufN[..d + 1][..d] == c1.bufN[..d + 1][..d] == c1.bufN[..d];
  }

  lemma PatchedHeader(out: seq<byte>, tag: byte, kids: seq<byte>, n: nat)
    ensures Patched(out + ([tag] + Store(0x1_0000, 4)) + kids, |out| + 1, n) == out + ([tag] + Store(n, 4) + kids)
  {
    hide Store;
    var s, at := out + ([tag] + Store(0x1_0000, 4)) + kids, |out| + 1;
    assert s[..at] == out + [tag];
    assert s[at + 4..] == kids;
  }

  /** The callbacks append a tree's encoding, for any tree that nests no deeper than the levels left. */
  lemma {:induction false} TreeRun(c: Conv, v: Value, max: nat)
    requires c.Valid(max) && Tree(v) && c.deep + Depth(v) < max
    ensures Stream(Events(v), c.deep)
    ensures var r := Run(c, Events(v), max); r.ok && Grew(c, r.c, Encoded(v), 1, max)
    decreases v, 0
  {
    hide Run, Grew, EventsAll, EncodedAll, Trees, DepthAll, Level;
    EventsBalanced(v, c.deep);
    match v
    case Arr(items) =>
      EventsBalancedAll(items, Item, c.deep + 1);
      ItemsRun(Handle(c, OnStartArray, max).c, items, Item, max);
      ContainerRun(c, OnStartArray, EventsAll(items, Item), OnEndArray, EncodedAll(items, Item), |items|, max);
    case Map(flat) =>
      EventsBalancedAll(flat, Key, c.deep + 1);
      ItemsRun(Handle(c, OnStartMap, max).c, flat, Key, max);
      ContainerRun(c, OnStartMap, EventsAll(flat, Key), OnEndMap, EncodedAll(flat, Key), |flat| / 2, max);
    case _ => LeafRun(c, v, max);
  }

  lemma LeafRun(c: Conv, v: Value, max: nat)
    requires c.Valid(max) && Tree(v) && !v.Arr? && !v.Map?
    requires Stream(Events(v), c.deep)
    ensures var r := Run(c, Events(v), max); r.ok && Grew(c, r.c, Encoded(v), 1, max)
  {
    var e := Events(v)[0];
    var a := Handle(c, e, max);
    assert Events(v)[1..] == [];
    assert Run(c, Events(v), max) == a;
    if v.Int? && v.i >= 0 { PackersAgree(v.i); }
    assert a.c.out == c.out + Pack(v);
  }

  lemma {:induction false} ItemsRun(c: Conv, vs: seq<Value>, m: Slot, max: nat)
    requires c.Valid(max) && Trees(vs, m) && c.deep + DepthAll(vs) < max
    requires c.count[c.deep] < TWO_32
    ensures Stream(EventsAll(vs, m), c.deep)
    ensures var r := Run(c, EventsAll(vs, m), max); r.ok && Grew(c, r.c, EncodedAll(vs, m), Counted(vs, m), max)
    decreases vs, 1
  {
    hide Trees, Encoded, Handle, Level, Events, Tree, Depth, Run, Stream, Grew;
    EventsBalancedAll(vs, m, c.deep);
    if vs == [] {
      GrewNothing(c, max);
    } else {
      TreesSplit(vs, m);
      var v, rest, k := vs[0], vs[1..], if m.Key? then 0 else 1;
      var a := if m.Key? then [OnMapKey(v.bytes)] else Events(v);
      var b := EventsAll(rest, After(m));
      assert EventsAll(vs, m) == a + b && EncodedAll(vs, m) == Encoded(v) + EncodedAll(rest, After(m));
      assert Depth(v) <= DepthAll(vs) && DepthAll(rest) <= DepthAll(vs);
      hide EventsAll, EncodedAll, DepthAll;
      if m.Key? { KeyRun(c, v, max); } else { TreeRun(c, v, max); }
      var d := Run(c, a, max).c;
      GrewFacts(c, d, Encoded(v), k, max);
      ItemsRun(d, rest, After(m), max);
      RunTwo(c, a, b, Encoded(v), EncodedAll(rest, After(m)), k, Counted(rest, After(m)), max);
    }
  }

  lemma GrewNothing(c: Conv, max: nat)
    requires c.Valid(max) && c.count[c.deep] < TWO_32
    ensures Stream([], c.deep) && Run(c, [], max) == Answer(true, c) && Grew(c, c, [], 0, max)
  {
  }

  lemma GrewFacts(c: Conv, d: Conv, s: seq<byte>, k: nat, max: nat)
    requires Grew(c, d, s, k, max)
    ensures c.deep == d.deep < |d.count| && d.count[d.deep] < TWO_32
  {
  }

  lemma RunTwo(c: Conv, a: seq<Event>, b: seq<Event>, s: seq<byte>, t: seq<byte>, k: nat, l: nat, max: nat)
    requires c.Valid(max) && Stream(a, c.deep) && Stream(a + b, c.deep)
    requires Run(c, a, max).ok && Grew(c, Run(c, a, max).c, s, k, max) && Stream(b, Run(c, a, max).c.deep)
    requires var d := Run(c, a, max).c; Run(d, b, max).ok && Grew(d, Run(d, b, max).c, t, l, max)
    ensures Run(c, a + b, max).ok && Grew(c, Run(c, a + b, max).c, s + t, k + l, max)
  {
    hide Run;
    var d := Run(c, a, max).c;
    RunConcat(c, a, b, max);
    GrewMore(c, d, Run(d, b, max).c, s, t, k, l, max);
  }

  lemma KeyRun(c: Conv, v: Value, max: nat)
    requires c.Valid(max) && Tree(v) && v.Str? && c.count[c.deep] < TWO_32
    ensures Stream([OnMapKey(v.bytes)], c.deep)
    ensures var r := Run(c, [OnMapKey(v.bytes)], max); r.ok && Grew(c, r.c, Encoded(v), 0, max)
  {
    var es := [OnMapKey(v.bytes)];
    assert es[1..] == [];
    assert Level(es, c.deep) == Level(es[1..], c.deep);
    assert Run(c, es, max) == Handle(c, es[0], max);
  }

  /** A tree that nests deeper than the levels left is refused. */
  lemma {:induction false} TooDeep(c: Conv, v: Value, max: nat)
    requires c.Valid(max) && Tree(v) && c.deep + Depth(v) >= max
    ensures Stream(Events(v), c.deep) && !Run(c, Events(v), max).ok
    decreases v, 0
  {
    EventsBalanced(v, c.deep);
    if v.Arr? {
      TooDeepInside(c, OnStartArray, v.items, Item, OnEndArray, max);
    } else {
      TooDeepInside(c, OnStartMap, v.flat, Key, OnEndMap, max);
    }
  }

  lemma {:induction false} TooDeepInside(c: Conv, a: Event, vs: seq<Value>, m: Slot, b: Event, max: nat)
    requires c.Valid(max) && Trees(vs, m) && c.deep + 1 + DepthAll(vs) >= max
    requires (a == OnStartArray && b == OnEndArray) || (a == OnStartMap && b == OnEndMap)
    requires Stream([a] + EventsAll(vs, m) + [b], c.deep)
    ensures !Run(c, [a] + EventsAll(vs, m) + [b], max).ok
    decreases vs, 2
  {
    var es := EventsAll(vs, m);
    assert [a] + es + [b] == [a] + (es + [b]);
    assert ([a] + (es + [b]))[1..] == es + [b];
    var r := Handle(c, a, max);
    if r.ok {
      TooDeepAmong(r.c, vs, m, max);
      RunConcat(r.c, es, [b], max);
    }
  }

  lemma {:induction false} TooDeepAmong(c: Conv, vs: seq<Value>, m: Slot, max: nat)
    requires c.Valid(max) && Trees(vs, m) && c.deep + DepthAll(vs) >= max && c.count[c.deep] < TWO_32
    ensures Stream(EventsAll(vs, m), c.deep) && !Run(c, EventsAll(vs, m), max).ok
    decreases vs, 1
  {
    EventsBalancedAll(vs, m, c.deep);
    var a := if m.Key? then [OnMapKey(vs[0].bytes)] else Events(vs[0]);
    var b := EventsAll(vs[1..], After(m));
    if c.deep + Depth(vs[0]) >= max {
      TooDeep(c, vs[0], max);
      RunConcat(c, a, b, max);
    } else {
      if m.Key? { KeyRun(c, vs[0], max); } else { TreeRun(c, vs[0], max); }
      RunConcat(c, a, b, max);
      TooDeepAmong(Run(c, a, max).c, vs[1..], After(m), max);
    }
  }

  /**
    * The callbacks take the events of a tree exactly if it nests less than `max`, and then leave bytes that decode to
    * exactly this tree.
    */
  lemma Converted(v: Value, max: nat)
    requires Tree(v) && max > 0
    ensures Stream(Events(v), 0)
    ensures
      var r := Run(Initial(max), Events(v), max);
      && (r.ok <==> Depth(v) < max)
      && (r.ok ==> r.c.deep == 0 && Walk(r.c.out, 0) == Got(v, |r.c.out|))
  {
    var c := Initial(max);
    if Depth(v) >= max {
      TooDeep(c, v, max);
      return;
    }
    TreeRun(c, v, max);
    var out := Run(c, Events(v), max).c.out;
    assert out == Encoded(v);
    assert Stands(out, 0, out);
    EncodedWalk(out, 0, v);
  }

  // ---- where the counts are ----

  /** The offsets of the open containers point at their own headers, one behind the other. */
  predicate Placed(c: Conv, max: nat) {
    && c.Valid(max)
    && (forall j | 1 <= j <= c.deep :: c.out[c.bufN[j] - 1] == 0xdd || c.out[c.bufN[j] - 1] == 0xdf)
    && (forall i, j | 1 <= i < j <= c.deep :: c.bufN[i] + 5 <= c.bufN[j])
  }

  /** An end event changes the four count bytes of its own container and no other byte. */
  lemma EndChangesItsCount(c: Conv, max: nat)
    requires Placed(c, max) && c.deep > 0
    ensures
      var d, at := End(c, max), c.bufN[c.deep];
      && |d.out| == |c.out|
      && d.out[at..at + 4] == Store(c.count[c.deep], 4)
      && (forall i | 0 <= i < |c.out| && !(at <= i < at + 4) :: d.out[i] == c.out[i])
      && Placed(d, max)
  {
    hide Store;
    var d, at := End(c, max), c.bufN[c.deep];
    assert d.out[at..at + 4] == Store(c.count[c.deep], 4);
    assert forall i | at + 4 <= i < |c.out| :: d.out[i] == c.out[at + 4..][i - (at + 4)] == c.out[i];
  }

  lemma HandlePlaced(c: Conv, e: Event, max: nat)
    requires Placed(c, max) && e.Wide() && ((e.OnEndMap? || e.OnEndArray?) ==> c.deep > 0)
    ensures Handle(c, e, max).ok ==> Placed(Handle(c, e, max).c, max)
    ensures Handle(c, e, max).ok <==> !((e.OnStartMap? || e.OnStartArray?) && c.deep + 1 == max)
  {
    hide Store, PackSigned, PackStrHeader;
    if e.OnEndMap? || e.OnEndArray? { EndChangesItsCount(c, max); }
  }

  /** This holds after every run of callbacks, on any stream of events. */
  lemma {:induction false} RunPlaced(c: Conv, es: seq<Event>, max: nat)
    requires Placed(c, max) && Stream(es, c.deep)
    ensures Run(c, es, max).ok ==> Placed(Run(c, es, max).c, max)
    decreases |es|
  {
    if es != [] {
      hide Placed, Handle;
      HandlePlaced(c, es[0], max);
      var a := Handle(c, es[0], max);
      if a.ok {
        assert es[0] in es && a.c.Valid(max);
        StreamRest(c, es, max);
        RunPlaced(a.c, es[1..], max);
      }
    }
  }
}
