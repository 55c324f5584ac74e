/** Input that ends inside a container: what the bridge makes of it, in both directions. */
module JsonPartial {
  import opened Bytes
  import opened Msgpack
  import opened Mpack
  import opened MpackAgree
  import opened MpackFlat
  import opened Json
  import opened JsonTheorems
  import opened JsonGenerate

  // ---- MessagePack to JSON ----

  predicate Writable(o: Obj) { !o.Failed? && (o.OArr? || o.OMap? || ScalarCall(o).Some?) }

  /** Up to the end of `need` objects, or of the input, all that is there is complete and has a form in JSON. */
  predicate AllWritable(data: seq<byte>, pt: nat, need: nat)
    decreases Rest(data, pt)
  {
    hide Next;
    need > 0 ==>
      var o, p := Next(data, pt).o, Next(data, pt).pt;
      o == Failed(END) || (Writable(o) && AllWritable(data, p, need - 1 + Kids(o)))
  }

  /** The generator takes every call. */
  ghost predicate TakesAll(taste: Taste) { forall calls: seq<Call>, c: Call :: taste(calls, c) }

  lemma {:induction false} WritableMore(data: seq<byte>, pt: nat, calls: seq<Call>, taste: Taste, m: nat)
    ensures
      var r := ToJson(data, pt, calls, taste);
      && (r.ok && AllWritable(data, r.pt, m) ==> AllWritable(data, pt, 1 + m))
      && (TakesAll(taste) && AllWritable(data, pt, 1 + m) ==> r.ok && AllWritable(data, r.pt, m))
    decreases Rest(data, pt), 0
  {
    hide Next, TakesAll;
    var o, p := Next(data, pt).o, Next(data, pt).pt;
    match o
    case Failed(tp) => EndStays(data, pt);
    case OArr(n) => WritableInside(data, p, calls, taste, GenArrayOpen, n, GenArrayClose, m);
    case OMap(n) => WritableInside(data, p, calls, taste, GenMapOpen, 2 * n, GenMapClose, m);
    case _ => if ScalarCall(o).Some? { Given(taste, calls, ScalarCall(o).value, p); }
  }

  lemma EndStays(data: seq<byte>, pt: nat)
    ensures Next(data, pt).o == Failed(END) ==> Next(data, pt).pt == pt && forall m: nat :: AllWritable(data, pt, m)
  {
    assert pt < |data| ==> Next(data, pt).o != Failed(END);
  }

  lemma Given(taste: Taste, calls: seq<Call>, c: Call, pt: nat)
    ensures TakesAll(taste) ==> Give(taste, calls, c, pt).ok
  {
  }

  lemma {:induction false} WritableInside(data: seq<byte>, p: nat, calls: seq<Call>, taste: Taste, open: Call, n: nat,
                                          close: Call, m: nat)
    ensures
      var r := Container(data, p, calls, taste, open, n, close);
      && (r.ok && AllWritable(data, r.pt, m) ==> AllWritable(data, p, n + m))
      && (TakesAll(taste) && AllWritable(data, p, n + m) ==> r.ok && AllWritable(data, r.pt, m))
    decreases Rest(data, p), 2
  {
    hide AllWritable, TakesAll, ToJsonN;
    Given(taste, calls, open, p);
    var a := Give(taste, calls, open, p);
    if a.ok {
      WritableAll(data, p, a.calls, taste, n, m);
      var b := ToJsonN(data, p, a.calls, taste, n);
      Given(taste, b.calls, close, b.pt);
    }
  }

  lemma {:induction false} WritableAll(data: seq<byte>, pt: nat, calls: seq<Call>, taste: Taste, n: nat, m: nat)
    ensures
      var r := ToJsonN(data, pt, calls, taste, n);
      && (r.ok && AllWritable(data, r.pt, m) ==> AllWritable(data, pt, n + m))
      && (TakesAll(taste) && AllWritable(data, pt, n + m) ==> r.ok && AllWritable(data, r.pt, m))
    decreases Rest(data, pt), 1, n
  {
    hide ToJson, AllWritable, TakesAll;
    if n > 0 {
      WritableMore(data, pt, calls, taste, n - 1 + m);
      var r := ToJson(data, pt, calls, taste);
      if r.ok { WritableAll(data, r.pt, r.calls, taste, n - 1, m); }
    }
  }

  /**
    * Exactly when `mp__to_json` succeeds, for a generator that takes every call: if all that is read is complete and
    * has a form in JSON.  The object itself need not be complete.
    */
  lemma JsonExactly(data: seq<byte>, pt: nat, calls: seq<Call>, taste: Taste)
    ensures ToJson(data, pt, calls, taste).ok ==> AllWritable(data, pt, 1)
    ensures TakesAll(taste) ==> (ToJson(data, pt, calls, taste).ok <==> AllWritable(data, pt, 1))
  {
    hide ToJson, TakesAll;
    WritableMore(data, pt, calls, taste, 0);
  }

  /** An array of two of which only the first is there is written as an array of one. */
  lemma ShortArray(taste: Taste)
    requires TakesAll(taste)
    ensures
      var data := [0x92, 0x01];
      && ToJson(data, 0, [], taste) == Made(true, [GenArrayOpen, GenInteger(1), GenArrayClose], 2)
      && Walk(data, 0) == Broken(INCOMPLETE)
  {
    var data: seq<byte> := [0x92, 0x01];
    assert Next(data, 0) == Read(OArr(2), 1) && Next(data, 1) == Read(OU64(1), 2);
    assert Next(data, 2) == Read(Failed(END), 2);
    hide Next;
    var a, b := [GenArrayOpen], [GenArrayOpen, GenInteger(1)];
    assert [] + [GenArrayOpen] == a && a + [GenInteger(1)] == b;
    assert taste([], GenArrayOpen) && taste(a, GenInteger(1)) && taste(b, GenArrayClose);
    assert ToJson(data, 2, b, taste) == Made(true, b, 2);
    assert ToJsonN(data, 2, b, taste, 1) == ToJsonN(data, 2, b, taste, 0);
    assert ToJson(data, 1, a, taste) == Made(true, b, 2);
    assert ToJsonN(data, 1, a, taste, 2) == Made(true, b, 2);
    assert WalkN(data, 2, 1) == Broken(INCOMPLETE);
    assert WalkN(data, 1, 2) == Broken(INCOMPLETE);
  }

  // ---- JSON to MessagePack ----

  /** A container that is still open, and what is in it already; of a map, keys and values in turn. */
  datatype Frame = Frame(isMap: bool, kids: seq<Value>) {
    function First(): Slot { if isMap then Key else Item }

    predicate Ok() { Trees(kids, First()) }

    /** The children that its header announces as long as it is open. */
    function Announced(): nat { if isMap then 0x2_0000 else 0x1_0000 }

    function Tag(): byte { if isMap then 0xdf else 0xdd }

    function Opens(): Event { if isMap then OnStartMap else OnStartArray }
  }

  predicate FramesOk(fs: seq<Frame>) { forall i | 0 <= i < |fs| :: fs[i].Ok() }

  /** The events up to here. */
  function FrameEvents(fs: seq<Frame>): seq<Event>
    requires FramesOk(fs)
  {
    if fs == [] then [] else [fs[0].Opens()] + (EventsAll(fs[0].kids, fs[0].First()) + FrameEvents(fs[1..]))
  }

  function FrameBytes(fs: seq<Frame>): seq<byte>
    requires FramesOk(fs)
  {
    if fs == [] then []
    else [fs[0].Tag()] + Store(0x1_0000, 4) + (EncodedAll(fs[0].kids, fs[0].First()) + FrameBytes(fs[1..]))
  }

  /** The frames nest less than the levels there are. */
  predicate FramesFit(fs: seq<Frame>, deep: nat, max: nat) {
    deep + |fs| < max && forall i | 0 <= i < |fs| :: deep + i + 1 + DepthAll(fs[i].kids) < max
  }

  lemma {:induction false} FramesLevel(fs: seq<Frame>, deep: nat)
    requires FramesOk(fs)
    ensures Level(FrameEvents(fs), deep) == Some(deep + |fs|) && Stream(FrameEvents(fs), deep)
    decreases |fs|
  {
    if fs != [] {
      hide Level, EventsAll, Trees;
      var f, rest := fs[0], FrameEvents(fs[1..]);
      var es := EventsAll(f.kids, f.First());
      EventsBalancedAll(f.kids, f.First(), deep + 1);
      FramesLevel(fs[1..], deep + 1);
      LevelConcat(es, rest, deep + 1);
      LevelOpens(f.Opens(), es + rest, deep);
      forall e | e in FrameEvents(fs) ensures e.Wide() { assert e == f.Opens() || e in es || e in rest; }
    }
  }

  lemma LevelOpens(e: Event, es: seq<Event>, deep: nat)
    requires e.OnStartMap? || e.OnStartArray?
    ensures Level([e] + es, deep) == Level(es, deep + 1)
  {
    assert ([e] + es)[1..] == es;
  }

  /** What the callbacks have written so far. */
  lemma {:induction false} FramesRun(c: Conv, fs: seq<Frame>, max: nat)
    requires c.Valid(max) && FramesOk(fs) && FramesFit(fs, c.deep, max)
    ensures Stream(FrameEvents(fs), c.deep)
    ensures
      var r := Run(c, FrameEvents(fs), max);
      r.ok && r.c.out == c.out + FrameBytes(fs) && r.c.deep == c.deep + |fs|
    decreases |fs|
  {
    hide Handle, Run, EventsAll, EncodedAll, Store, Stream, FramesFit, Trees;
    FramesLevel(fs, c.deep);
    if fs == [] {
      RunNothing(c, max);
      assert c.out + [] == c.out;
    } else {
      var f, rest := fs[0], FrameEvents(fs[1..]);
      var es, head := EventsAll(f.kids, f.First()), [f.Tag()] + Store(0x1_0000, 4);
      var kids, more := EncodedAll(f.kids, f.First()), FrameBytes(fs[1..]);
      FrameRun(c, fs, max);
      var c1 := Handle(c, f.Opens(), max).c;
      var c2 := Run(c1, es, max).c;
      RunConcat(c1, es, rest, max);
      FramesRun(c2, fs[1..], max);
      assert c.out + head + kids + more == c.out + (head + (kids + more));
    }
  }

  lemma RunNothing(c: Conv, max: nat)
    requires c.Valid(max)
    ensures Stream([], c.deep) && Run(c, [], max) == Answer(true, c)
  {
  }

  /** The first of the frames. */
  lemma FrameRun(c: Conv, fs: seq<Frame>, max: nat)
    requires c.Valid(max) && FramesOk(fs) && FramesFit(fs, c.deep, max) && fs != []
    ensures
      var f, rest := fs[0], FrameEvents(fs[1..]);
      var a, es := Handle(c, f.Opens(), max), EventsAll(f.kids, f.First());
      && Stream([f.Opens()] + (es + rest), c.deep)
      && a.ok && a.c.deep == c.deep + 1 && Stream(es, a.c.deep) && Stream(es + rest, a.c.deep)
      && Run(c, [f.Opens()] + (es + rest), max) == Run(a.c, es + rest, max)
      && FramesOk(fs[1..]) && FramesFit(fs[1..], a.c.deep, max)
    ensures
      var f := fs[0];
      var r := Run(Handle(c, f.Opens(), max).c, EventsAll(f.kids, f.First()), max);
      && r.ok && r.c.deep == c.deep + 1
      && r.c.out == c.out + ([f.Tag()] + Store(0x1_0000, 4)) + EncodedAll(f.kids, f.First())
  {
    hide Run, Level, EventsAll, EncodedAll, Trees, DepthAll;
    var f, rest := fs[0], FrameEvents(fs[1..]);
    var es := EventsAll(f.kids, f.First());
    FramesLevel(fs, c.deep);
    FramesLevel(fs[1..], c.deep + 1);
    EventsBalancedAll(f.kids, f.First(), c.deep + 1);
    LevelConcat(es, rest, c.deep + 1);
    StartOpens(c, f.Opens(), f.Tag(), max);
    var c1 := Handle(c, f.Opens(), max).c;
    ItemsRun(c1, f.kids, f.First(), max);
    RunFirst(c, f.Opens(), es + rest, max);
  }

  // ---- what is decoded of it ----

  /** The open containers hold exactly what their headers announce, each as the last child of the one before. */
  predicate Filled(fs: seq<Frame>, need: nat)
    decreases |fs|
  {
    if fs == [] then need == 0
    else
      var n := need - 1 + fs[0].Announced();
      need > 0 && |fs[0].kids| <= n && Filled(fs[1..], n - |fs[0].kids|)
  }

  lemma {:induction false} FramesFlat(data: seq<byte>, pt: nat, fs: seq<Frame>, need: nat)
    requires FramesOk(fs) && Stands(data, pt, FrameBytes(fs)) && pt + |FrameBytes(fs)| == |data|
    ensures FlatEnd(data, pt, need) == Some(|data|) <==> Filled(fs, need)
    decreases |fs|
  {
    hide Next, Stands, FlatEnd, EncodedAll, Store, Trees;
    if fs == [] {
      FlatAtEnd(data, need);
    } else {
      var f, more := fs[0], FrameBytes(fs[1..]);
      var head, kids := [f.Tag()] + Store(0x1_0000, 4), EncodedAll(f.kids, f.First());
      StandsSplit(data, pt, head, kids + more);
      StandsSplit(data, pt + 5, kids, more);
      CountRead(data, pt, f.Tag(), 0x1_0000);
      FlatHead(data, pt, f, need);
      if need > 0 { FlatKids(data, pt + 5, f, need - 1 + f.Announced()); }
      if need > 0 && |f.kids| <= need - 1 + f.Announced() {
        FramesFlat(data, pt + 5 + |kids|, fs[1..], need - 1 + f.Announced() - |f.kids|);
      }
    }
  }

  lemma FlatAtEnd(data: seq<byte>, need: nat)
    ensures FlatEnd(data, |data|, need) == Some(|data|) <==> need == 0
  {
  }

  lemma FlatHead(data: seq<byte>, pt: nat, f: Frame, need: nat)
    requires Next(data, pt) == Read(if f.Tag() == 0xdd then OArr(0x1_0000) else OMap(0x1_0000), pt + 5)
    ensures FlatEnd(data, pt, need) == if need == 0 then Some(pt) else FlatEnd(data, pt + 5, need - 1 + f.Announced())
  {
    hide Next;
  }

  /** Children that are there count down. */
  lemma FlatKids(data: seq<byte>, pt: nat, f: Frame, n: nat)
    requires f.Ok() && Stands(data, pt, EncodedAll(f.kids, f.First()))
    ensures
      var e := pt + |EncodedAll(f.kids, f.First())|;
      if |f.kids| <= n then FlatEnd(data, pt, n) == FlatEnd(data, e, n - |f.kids|)
      else FlatEnd(data, pt, n).Some? && FlatEnd(data, pt, n).value < e
  {
    hide FlatEnd, EncodedAll, Trees, WalkN, Stands;
    EncodedWalkAll(data, pt, f.kids, f.First());
    FlatWalkN(data, pt, |f.kids|);
    if |f.kids| <= n {
      FlatSplit(data, pt, |f.kids|, n - |f.kids|);
    } else {
      FlatSplit(data, pt, n, |f.kids| - n);
    }
  }

  /**
    * Exactly when the bytes written for unfinished input decode as one object: if and only if the placeholder counts of
    * the open containers happen to be right.
    */
  lemma UnfinishedDecodes(fs: seq<Frame>, max: nat)
    requires FramesOk(fs) && FramesFit(fs, 0, max)
    ensures Stream(FrameEvents(fs), 0)
    ensures
      var r := Run(Initial(max), FrameEvents(fs), max);
      r.ok && ((Walk(r.c.out, 0).Got? && Walk(r.c.out, 0).pt == |r.c.out|) <==> Filled(fs, 1))
  {
    hide Run, FrameEvents, Walk, FlatEnd;
    FramesRun(Initial(max), fs, max);
    var out := FrameBytes(fs);
    assert [] + out == out && Stands(out, 0, out);
    FramesFlat(out, 0, fs, 1);
    FlatWalk(out, 0);
  }

  function KidsIn(fs: seq<Frame>): nat { if fs == [] then 0 else |fs[0].kids| + KidsIn(fs[1..]) }

  /** Unfinished input of fewer than 65536 values does not decode. */
  lemma {:induction false} ShortIsNotFilled(fs: seq<Frame>, need: nat)
    requires fs != [] && KidsIn(fs) < need + 0xffff
    ensures !Filled(fs, need)
    decreases |fs|
  {
    if need > 0 && |fs[0].kids| <= need - 1 + fs[0].Announced() && fs[1..] != [] {
      ShortIsNotFilled(fs[1..], need - 1 + fs[0].Announced() - |fs[0].kids|);
    }
  }

  // ---- every prefix is of this kind ----

  /** The events of a tree, cut off before the last. */
  lemma {:induction false} PrefixFrames(v: Value, k: nat) returns (fs: seq<Frame>)
    requires Tree(v) && 0 < k < |Events(v)|
    ensures fs != [] && FramesOk(fs) && FrameEvents(fs) == Events(v)[..k]
    ensures forall deep: nat, max: nat | deep + Depth(v) < max :: FramesFit(fs, deep, max)
    decreases v, 0
  {
    hide EventsAll, Trees, DepthAll, FramesFit;
    match v
    case Arr(items) => fs := PrefixInside(v, false, items, k);
    case Map(flat) => fs := PrefixInside(v, true, flat, k);
  }

  lemma {:induction false} PrefixInside(v: Value, isMap: bool, vs: seq<Value>, k: nat) returns (fs: seq<Frame>)
    requires Tree(v) && (if isMap then v == Map(vs) else v == Arr(vs)) && 0 < k < |Events(v)|
    ensures fs != [] && FramesOk(fs) && FrameEvents(fs) == Events(v)[..k]
    ensures forall deep: nat, max: nat | deep + Depth(v) < max :: FramesFit(fs, deep, max)
    decreases vs, 2
  {
    hide EventsAll, Trees, DepthAll, FramesFit;
    var m := if isMap then Key else Item;
    var all := EventsAll(vs, m);
    var done, inner := PrefixAmong(vs, m, k - 1);
    var f := Frame(isMap, done);
    fs := [f] + inner;
    assert fs[1..] == inner;
    assert Events(v)[..k] == [f.Opens()] + all[..k - 1];
    forall deep: nat, max: nat | deep + Depth(v) < max ensures FramesFit(fs, deep, max) {
      FitMore(f, inner, deep, max);
    }
  }

  lemma FitMore(f: Frame, inner: seq<Frame>, deep: nat, max: nat)
    requires deep + 1 + DepthAll(f.kids) < max && FramesFit(inner, deep + 1, max)
    ensures FramesFit([f] + inner, deep, max)
  {
    hide DepthAll;
    var fs := [f] + inner;
    forall i | 0 <= i < |fs| ensures deep + i + 1 + DepthAll(fs[i].kids) < max {
      if i > 0 { assert fs[i] == inner[i - 1]; }
    }
  }

  lemma {:induction false} PrefixAmong(vs: seq<Value>, m: Slot, k: nat) returns (done: seq<Value>, inner: seq<Frame>)
    requires Trees(vs, m) && k <= |EventsAll(vs, m)|
    ensures Trees(done, m) && FramesOk(inner) && EventsAll(vs, m)[..k] == EventsAll(done, m) + FrameEvents(inner)
    ensures DepthAll(done) <= DepthAll(vs)
    ensures forall deep: nat, max: nat | deep + DepthAll(vs) < max :: FramesFit(inner, deep, max)
    decreases vs, 1
  {
    hide Events, Tree, Trees, EventsAll, FrameEvents, Depth, DepthAll, FramesFit;
    done, inner := [], [];
    NoEvents();
    NoFrames();
    if k > 0 {
      assert vs != [] by { NoItems(m); }
      var v, rest := vs[0], vs[1..];
      TreesSplit(vs, m);
      FirstItem(v, rest, m);
      assert [v] + rest == vs;
      var a, b := ItemEvents(v, m), EventsAll(rest, After(m));
      if k < |a| {
        inner := PrefixFrames(v, k);
        assert (a + b)[..k] == a[..k];
        NoItems(m);
      } else {
        var d;
        d, inner := PrefixAmong(rest, After(m), k - |a|);
        done := [v] + d;
        FirstItem(v, d, m);
        assert (a + b)[..k] == a + b[..k - |a|];
        assert a + b[..k - |a|] == a + EventsAll(d, After(m)) + FrameEvents(inner);
      }
    } else {
      NoItems(m);
    }
  }

  function ItemEvents(v: Value, m: Slot): seq<Event>
    requires Tree(v) && (m.Key? ==> v.Str?)
  {
    if m.Key? then [OnMapKey(v.bytes)] else Events(v)
  }

  lemma NoItems(m: Slot)
    ensures Trees([], m) && EventsAll([], m) == [] && DepthAll([]) == 0
  {
  }

  lemma FirstItem(v: Value, rest: seq<Value>, m: Slot)
    requires Tree(v) && (m.Key? ==> v.Str?) && Trees(rest, After(m))
    ensures Trees([v] + rest, m) && EventsAll([v] + rest, m) == ItemEvents(v, m) + EventsAll(rest, After(m))
    ensures DepthAll([v] + rest) == if Depth(v) > DepthAll(rest) then Depth(v) else DepthAll(rest)
  {
    assert ([v] + rest)[1..] == rest;
    hide Tree, Events, Depth;
  }

  lemma NoFrames()
    ensures forall deep: nat, max: nat | deep < max :: FramesFit([], deep, max)
  {
  }

  /**
    * The events of a tree, as far as they have come: the callbacks take them if the tree nests less than the limit, and
    * what they have written is one object exactly if all have come, or the open containers are filled.
    */
  lemma PrefixDecodes(v: Value, k: nat, max: nat) returns (fs: seq<Frame>)
    requires Tree(v) && Depth(v) < max && k <= |Events(v)|
    ensures FramesOk(fs) && (k < |Events(v)| ==> FrameEvents(fs) == Events(v)[..k]) && Stream(Events(v)[..k], 0)
    ensures
      var r := Run(Initial(max), Events(v)[..k], max);
      && r.ok
      && (Walk(r.c.out, 0).Got? && Walk(r.c.out, 0).pt == |r.c.out| <==> k == |Events(v)| || Filled(fs, 1))
  {
    hide Run, Walk, Events, FrameEvents, FramesFit, Stream, Filled;
    fs := [];
    if k == |Events(v)| {
      assert Events(v)[..k] == Events(v);
      Converted(v, max);
    } else if k == 0 {
      assert Events(v)[..k] == [];
      UnfinishedDecodes([], max) by { NoFrames(); }
      assert FrameEvents([]) == [] by { NoEvents(); }
    } else {
      fs := PrefixFrames(v, k);
      UnfinishedDecodes(fs, max);
    }
  }

  lemma NoEvents()
    ensures FrameEvents([]) == []
  {
  }
}
