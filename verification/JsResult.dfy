/** What a caller of the JavaScript decoder gets: for which inputs the answer depends on where a stream is cut. */
module JsResult {
  import opened Bytes
  import opened JsUtf8
  import opened JsUtf8Theorems
  import opened JsDecode
  import opened JsCut

  // ---- maps that repeat no key ----

  predicate Named(props: seq<(text, Js)>, k: text) { exists i | 0 <= i < |props| :: props[i].0 == k }

  /** Where `o` goes, and where every container goes that it completes, no key has a value yet. */
  predicate FeedsNew(stack: seq<State>, o: Js)
    decreases |stack|
  {
    stack != [] ==>
      var top, below := stack[|stack| - 1], stack[..|stack| - 1];
      match top
      case ArrayState(size, items) => |items| + 1 == size ==> FeedsNew(below, JArray(items + [o]))
      case MapState(_, None, _, _) => true
      case MapState(size, Some(k), readCount, props) =>
        !Named(props, k) && (readCount + 1 == size ==> FeedsNew(below, JObject(Assign(props, k, o))))
  }

  /** No map of the run repeats a key. */
  predicate NoRepeat(cfg: Config, rest: seq<byte>, stack: seq<State>)
    decreases |rest|
  {
    && (rest != [] ==>
          var t := TokenAt(cfg, IsKey(stack), rest[0], rest[1..]);
          t.Atom? ==> FeedsNew(stack, t.o))
    && var t := TurnOf(cfg, rest, stack); t.On? ==> NoRepeat(cfg, t.rest, t.stack)
  }

  // ---- two stacks ----

  /** Containers of the same kind that are filled to the same point. */
  predicate SameShape(a: State, b: State) {
    match a
    case ArrayState(n, x) => b.ArrayState? && b.size == n && |b.items| == |x|
    case MapState(n, k, c, _) => b.MapState? && b.size == n && b.key.Some? == k.Some? && b.readCount == c
  }

  /** A difference that no later assignment of a new key can undo. */
  predicate Differ(a: State, b: State)
    requires SameShape(a, b)
  {
    a != b && (a.MapState? ==> |b.props| <= |a.props|)
  }

  predicate Alike(s: seq<State>, c: seq<State>) {
    |s| == |c| && forall i | 0 <= i < |s| :: SameShape(s[i], c[i])
  }

  predicate Twins(s: seq<State>, c: seq<State>) {
    Alike(s, c) && forall i | 0 <= i < |s| :: s[i] == c[i] || Differ(s[i], c[i])
  }

  /** Two objects in the same place: the same, or two strings, or two containers. */
  predicate Like(o: Js, p: Js) { o == p || (o.JString? && p.JString?) || (Container(o) && Container(p)) }

  lemma AlikePush(s: seq<State>, c: seq<State>, a: State, b: State)
    requires Alike(s, c) && SameShape(a, b)
    ensures Alike(s + [a], c + [b])
  {
  }

  lemma TwinsPush(s: seq<State>, c: seq<State>, a: State, b: State)
    requires Twins(s, c) && SameShape(a, b) && (a == b || Differ(a, b))
    ensures Twins(s + [a], c + [b])
    ensures s + [a] == c + [b] <==> s == c && a == b
  {
    var x, y := s + [a], c + [b];
    assert x[..|s|] == s && y[..|c|] == c && x[|s|] == a && y[|c|] == b;
  }

  lemma TwinsBelow(s: seq<State>, c: seq<State>)
    requires Twins(s, c) && s != []
    ensures |c| == |s|
    ensures
      var top, below, pot, wol := s[|s| - 1], s[..|s| - 1], c[|c| - 1], c[..|c| - 1];
      && Twins(below, wol) && SameShape(top, pot) && (top == pot || Differ(top, pot))
      && (s == c <==> below == wol && top == pot)
  {
    assert s == s[..|s| - 1] + [s[|s| - 1]] && c == c[..|c| - 1] + [c[|c| - 1]];
  }

  lemma SameKey(s: seq<State>, c: seq<State>)
    ensures Alike(s, c) ==> IsKey(s) == IsKey(c)
    ensures Twins(s, c) ==> IsKey(s) == IsKey(c)
  {
  }

  // ---- the same bytes on two stacks that are apart ----

  lemma {:induction false} AssignNew(props: seq<(text, Js)>, k: text, o: Js)
    ensures if Named(props, k) then |Assign(props, k, o)| == |props| else Assign(props, k, o) == props + [(k, o)]
  {
    if props != [] && props[0].0 != k {
      AssignNew(props[1..], k, o);
      if Named(props, k) {
        var i :| 0 <= i < |props| && props[i].0 == k;
        assert props[1..][i - 1].0 == k;
      } else {
        assert forall i | 0 <= i < |props[1..]| :: props[1..][i] == props[i + 1];
      }
    }
  }

  lemma AssignApart(p: seq<(text, Js)>, k: text, o: Js, q: seq<(text, Js)>, l: text, x: Js)
    requires !Named(p, k) && |q| <= |p|
    ensures |Assign(q, l, x)| <= |Assign(p, k, o)|
    ensures Assign(p, k, o) == Assign(q, l, x) ==> p == q && k == l && o == x
  {
    hide Named, Assign;
    AssignNew(p, k, o);
    AssignNew(q, l, x);
    if Assign(p, k, o) == Assign(q, l, x) {
      assert (p + [(k, o)])[..|p|] == p && (q + [(l, x)])[..|q|] == q;
      assert (p + [(k, o)])[|p|] == (k, o) && (q + [(l, x)])[|q|] == (l, x);
    }
  }

  lemma ItemsApart(x: seq<Js>, o: Js, y: seq<Js>, p: Js)
    requires |x| == |y|
    ensures x + [o] == y + [p] ==> x == y && o == p
  {
    assert (x + [o])[..|x|] == x && (y + [p])[..|y|] == y && (x + [o])[|x|] == o && (y + [p])[|y|] == p;
  }

  /** How two rounds end that are apart: with different objects, or apart. */
  predicate EndApart(f: Fed, g: Fed) {
    match f
    case Finished(x) => g.Finished? && g.o != x
    case Going(x) => g.Going? && Twins(x, g.stack) && x != g.stack
    case Refused => false
  }

  lemma PushApart(s: seq<State>, c: seq<State>, a: State, b: State)
    requires Twins(s, c) && SameShape(a, b) && (a == b || Differ(a, b)) && (s != c || a != b)
    ensures EndApart(Going(s + [a]), Going(c + [b]))
  {
    hide Twins, Differ, SameShape;
    TwinsPush(s, c, a, b);
  }

  /** A container is not a key. */
  lemma NoContainerKey(cfg: Config, s: seq<State>, o: Js)
    requires Container(o) && !Feed(cfg, s, o).Refused?
    ensures !IsKey(s)
  {
  }

  lemma {:induction false} FeedApart(cfg: Config, s: seq<State>, c: seq<State>, o: Js, p: Js)
    requires Twins(s, c) && Like(o, p) && (s != c || o != p) && FeedsNew(s, o) && !Feed(cfg, s, o).Refused?
    requires IsKey(s) ==> KeyOk(p)
    ensures EndApart(Feed(cfg, s, o), Feed(cfg, c, p))
    decreases |s|, 1
  {
    hide Feed, FeedsNew, KeyOk, SameShape, Differ;
    if s == [] {
      FeedEmpty(cfg, o);
      FeedEmpty(cfg, p);
    } else if s[|s| - 1].ArrayState? {
      ItemApart(cfg, s, c, o, p);
    } else if s[|s| - 1].key.None? {
      KeyApart(cfg, s, c, o, p);
    } else {
      ValueApart(cfg, s, c, o, p);
    }
  }

  lemma FeedEmpty(cfg: Config, o: Js)
    ensures Feed(cfg, [], o) == Finished(o)
  {
  }

  lemma {:induction false} ItemApart(cfg: Config, s: seq<State>, c: seq<State>, o: Js, p: Js)
    requires Twins(s, c) && (s != c || o != p) && FeedsNew(s, o) && !Feed(cfg, s, o).Refused?
    requires s != [] && s[|s| - 1].ArrayState?
    ensures EndApart(Feed(cfg, s, o), Feed(cfg, c, p))
    decreases |s|, 0
  {
    hide Twins, KeyOk, EndApart, IsKey;
    TwinsBelow(s, c);
    var top, below, pot, wol := s[|s| - 1], s[..|s| - 1], c[|c| - 1], c[..|c| - 1];
    var x, y := top.items + [o], pot.items + [p];
    ItemsApart(top.items, o, pot.items, p);
    if |top.items| + 1 == top.size {
      NoContainerKey(cfg, below, JArray(x));
      FeedApart(cfg, below, wol, JArray(x), JArray(y));
    } else {
      PushApart(below, wol, ArrayState(top.size, x), ArrayState(top.size, y));
    }
  }

  lemma KeyApart(cfg: Config, s: seq<State>, c: seq<State>, o: Js, p: Js)
    requires Twins(s, c) && Like(o, p) && (s != c || o != p) && !Feed(cfg, s, o).Refused? && KeyOk(p)
    requires s != [] && s[|s| - 1].MapState? && s[|s| - 1].key.None?
    ensures EndApart(Feed(cfg, s, o), Feed(cfg, c, p))
  {
    hide Twins, EndApart;
    TwinsBelow(s, c);
    var top, below, pot, wol := s[|s| - 1], s[..|s| - 1], c[|c| - 1], c[..|c| - 1];
    PushApart(below, wol, MapState(top.size, Some(NameOf(cfg, o)), top.readCount, top.props),
              MapState(top.size, Some(NameOf(cfg, p)), top.readCount, pot.props));
  }

  lemma {:induction false} ValueApart(cfg: Config, s: seq<State>, c: seq<State>, o: Js, p: Js)
    requires Twins(s, c) && (s != c || o != p) && FeedsNew(s, o) && !Feed(cfg, s, o).Refused?
    requires s != [] && s[|s| - 1].MapState? && s[|s| - 1].key.Some?
    ensures EndApart(Feed(cfg, s, o), Feed(cfg, c, p))
    decreases |s|, 0
  {
    hide Twins, KeyOk, EndApart, IsKey, Assign, Named;
    TwinsBelow(s, c);
    var top, below, pot, wol := s[|s| - 1], s[..|s| - 1], c[|c| - 1], c[..|c| - 1];
    var x, y := Assign(top.props, top.key.value, o), Assign(pot.props, pot.key.value, p);
    AssignApart(top.props, top.key.value, o, pot.props, pot.key.value, p);
    if top.readCount + 1 == top.size {
      NoContainerKey(cfg, below, JObject(x));
      FeedApart(cfg, below, wol, JObject(x), JObject(y));
    } else {
      var n := top.readCount + 1;
      PushApart(below, wol, MapState(top.size, None, n, x), MapState(top.size, None, n, y));
    }
  }

  /** The same bytes lead stacks that are apart to different objects. */
  lemma {:induction false} RunApart(cfg: Config, rest: seq<byte>, s: seq<State>, c: seq<State>)
    requires Twins(s, c) && s != c && NoRepeat(cfg, rest, s) && Run(cfg, rest, s).Object?
    ensures
      var x, y := Run(cfg, rest, s), Run(cfg, rest, c);
      y.Object? && y.o != x.o && y.rest == x.rest
    decreases |rest|
  {
    hide Twins, TurnOf, TokenAt, FeedsNew, IsKey;
    TurnApart(cfg, rest, s, c);
    var t, u := TurnOf(cfg, rest, s), TurnOf(cfg, rest, c);
    if t.On? { RunApart(cfg, t.rest, t.stack, u.stack); }
  }

  lemma TurnApart(cfg: Config, rest: seq<byte>, s: seq<State>, c: seq<State>)
    requires Twins(s, c) && s != c && NoRepeat(cfg, rest, s) && Run(cfg, rest, s).Object?
    ensures
      var t, u := TurnOf(cfg, rest, s), TurnOf(cfg, rest, c);
      match t
      case On(r, st) => u.On? && u.rest == r && Twins(st, u.stack) && st != u.stack
      case Stop(out) => out.Object? && u.Stop? && u.out.Object? && u.out.o != out.o && u.out.rest == out.rest
  {
    hide Twins, TokenAt, Feed, FeedsNew, IsKey, KeyOk;
    SameKey(s, c);
    var t := TokenAt(cfg, IsKey(s), rest[0], rest[1..]);
    if t.Open? {
      assert SameShape(t.st, t.st);
      TwinsPush(s, c, t.st, t.st);
    } else {
      KeyTaken(cfg, s, t.o);
      FeedApart(cfg, s, c, t.o, t.o);
    }
  }

  lemma KeyTaken(cfg: Config, s: seq<State>, o: Js)
    requires !Feed(cfg, s, o).Refused?
    ensures IsKey(s) ==> KeyOk(o)
  {
  }

  // ---- a string that has bits from behind it ----

  lemma SelfTwins(s: seq<State>)
    ensures Twins(s, s)
  {
  }

  /** What the first bytes come to, and the rest behind them, is another object. */
  predicate Otherwise(cfg: Config, b: seq<byte>, k: nat, stack: seq<State>)
    requires k <= |b|
  {
    var a, whole := Run(cfg, b[..k], stack), Run(cfg, b, stack);
    && a.Insufficient? && a.rest == [] && whole.Object?
    && var cut := Run(cfg, b[k..], a.stack); cut.Object? && cut.o != whole.o && cut.rest == whole.rest
  }

  lemma BehindIsMore(cfg: Config, key: bool, h: byte, b: seq<byte>)
    requires TokenAt(cfg, key, h, b).Atom? && !TokenSteady(cfg, key, h, b)
    ensures TokenAt(cfg, key, h, b).used < |b|
  {
    hide Decode, Whole;
  }

  lemma OtherwiseHere(cfg: Config, b: seq<byte>, stack: seq<State>) returns (k: nat)
    requires !SteadyHere(cfg, b, stack) && NoRepeat(cfg, b, stack)
    requires Run(cfg, b, stack).Object? && Run(cfg, b, stack).rest == []
    ensures 0 < k < |b| && Otherwise(cfg, b, k, stack)
  {
    hide TokenAt, TokenSteady, IsKey, Feed, Doomed, FeedsNew, Twins, KeyOk;
    var key, h, x := IsKey(stack), b[0], b[1..];
    TokenShows(cfg, key, h, x);
    BehindIsMore(cfg, key, h, x);
    var u := TokenAt(cfg, key, h, x);
    var t := TokenAt(cfg, key, h, x[..u.used]);
    k := 1 + u.used;
    var a, later := b[..k], b[k..];
    assert a[0] == h && a[1..] == x[..u.used] && a[1 + u.used..] == [];
    assert TurnOf(cfg, a, stack) == Placed(cfg, [], stack, t.o);
    assert TurnOf(cfg, b, stack) == Placed(cfg, later, stack, u.o);
    assert KeyOk(t.o) by { TextKey(t.o); }
    SelfTwins(stack);
    FeedApart(cfg, stack, stack, u.o, t.o);
    var f, g := Feed(cfg, stack, u.o), Feed(cfg, stack, t.o);
    NothingLeft(cfg, g.stack);
    hide TurnOf;
    assert Run(cfg, b, stack) == Run(cfg, later, f.stack);
    RunApart(cfg, later, f.stack, g.stack);
    assert Run(cfg, a, stack) == Run(cfg, [], g.stack) == Insufficient([], g.stack);
  }

  lemma TextKey(o: Js)
    requires o.JString? && o.s != PROTO
    ensures KeyOk(o)
  {
  }

  /** A run to an object that is not steady has a place where a cut leads to another object. */
  lemma {:induction false} CutOtherwise(cfg: Config, b: seq<byte>, stack: seq<State>) returns (k: nat)
    requires !Steady(cfg, b, stack) && NoRepeat(cfg, b, stack)
    requires Run(cfg, b, stack).Object? && Run(cfg, b, stack).rest == []
    ensures 0 < k < |b| && Otherwise(cfg, b, k, stack)
    decreases |b|
  {
    hide TurnOf, SteadyHere, TokenAt, FeedsNew, IsKey;
    if !SteadyHere(cfg, b, stack) {
      k := OtherwiseHere(cfg, b, stack);
    } else {
      var u := TurnOf(cfg, b, stack);
      var j := CutOtherwise(cfg, u.rest, u.stack);
      k := |b| - |u.rest| + j;
      TurnRest(cfg, b, stack);
      TurnCut(cfg, b, k, stack);
      assert u.rest[j..] == b[k..];
      SamePrefix(TurnOf(cfg, b[..k], stack).rest, u.rest, b[k..], j);
    }
  }

  /** The answer for the input in two buffers. */
  function InTwo(cfg: Config, b: seq<byte>, k: nat): Option<Decoded>
    requires k <= |b|
  {
    Stream(cfg, [], [], [b[..k], b[k..]])
  }

  lemma InTwoIs(cfg: Config, b: seq<byte>, k: nat)
    requires k <= |b|
    ensures
      var a := Run(cfg, b[..k], []);
      InTwo(cfg, b, k)
      == if a.Insufficient? then Judge(Run(cfg, a.rest + b[k..], a.stack))
         else if a.Object? then Some(ExtraBytes) else Judge(a)
  {
    hide Run;
    var pieces := [b[..k], b[k..]];
    assert [] + pieces[0] == b[..k] && pieces[1..] == [b[k..]];
    var a := Run(cfg, b[..k], []);
    if a.Insufficient? { OneBuffer(cfg, a.rest, a.stack, b[k..]); }
  }

  lemma OneBuffer(cfg: Config, unread: seq<byte>, stack: seq<State>, piece: seq<byte>)
    ensures Stream(cfg, unread, stack, [piece]) == Judge(Run(cfg, unread + piece, stack))
  {
    hide Run;
    assert [piece][1..] == [];
    var a := Run(cfg, unread + piece, stack);
    if a.Insufficient? { assert Stream(cfg, a.rest, a.stack, []) == Some(TooShort); }
  }

  /**
    * Exactly when the object a caller gets does not depend on the place of a cut, for input whose maps repeat no key:
    * if and only if no string takes bits from behind its end.
    */
  lemma ObjectExactly(cfg: Config, b: seq<byte>, o: Js)
    requires Run(cfg, b, []) == Object(o, []) && NoRepeat(cfg, b, [])
    ensures (forall k | 0 < k < |b| :: InTwo(cfg, b, k) == Some(Value(o))) <==> Steady(cfg, b, [])
  {
    hide Run, Steady, NoRepeat, InTwo;
    if Steady(cfg, b, []) {
      forall k | 0 < k < |b| ensures InTwo(cfg, b, k) == Some(Value(o)) { TwoIsWhole(cfg, b, k); }
    } else {
      var k := CutOtherwise(cfg, b, []);
      InTwoIs(cfg, b, k);
      assert [] + b[k..] == b[k..];
    }
  }

  lemma TwoPieces(a: seq<byte>, b: seq<byte>)
    ensures Concat([a, b]) == a + b
  {
    assert [a, b][1..] == [b] && [b][1..] == [];
    assert Concat([b]) == b + Concat([b][1..]) == b;
  }

  lemma TwoIsWhole(cfg: Config, b: seq<byte>, k: nat)
    requires 0 < k < |b| && Steady(cfg, b, [])
    ensures InTwo(cfg, b, k) == Judge(Run(cfg, b, []))
  {
    hide Run, Steady, Stream;
    var pieces := [b[..k], b[k..]];
    assert Concat(pieces) == b by { TwoPieces(b[..k], b[k..]); assert b[..k] + b[k..] == b; }
    StreamIsWhole(cfg, pieces);
  }

  // ---- whatever the texts ----

  /** A key that is the refused name only because of the bytes behind it. */
  predicate ByBits(cfg: Config, rest: seq<byte>, stack: seq<State>) {
    && rest != [] && IsKey(stack) && !TokenSteady(cfg, true, rest[0], rest[1..])
    && var t := TokenAt(cfg, true, rest[0], rest[1..]); t.Atom? && t.o == JString(PROTO)
  }

  /** What such a key is when the input ends with it, and where the run then goes on. */
  function Instead(cfg: Config, rest: seq<byte>, stack: seq<State>): (t: Turned)
    requires ByBits(cfg, rest, stack)
    ensures t.On? && |t.rest| < |rest|
  {
    hide TokenAt, TokenSteady, IsKey, Feed, KeyOk;
    var x := rest[1..];
    TokenShows(cfg, true, rest[0], x);
    var u := TokenAt(cfg, true, rest[0], x);
    var o := TokenAt(cfg, true, rest[0], x[..u.used]).o;
    TextKey(o);
    KeyGoes(cfg, stack, o);
    Placed(cfg, x[u.used..], stack, o)
  }

  /** Behind every such key the input is malformed all the same. */
  predicate Firm(cfg: Config, rest: seq<byte>, stack: seq<State>)
    decreases |rest|
  {
    if ByBits(cfg, rest, stack) then
      var t := Instead(cfg, rest, stack);
      Run(cfg, t.rest, t.stack) == Invalid && Firm(cfg, t.rest, t.stack)
    else
      var t := TurnOf(cfg, rest, stack);
      t.On? ==> Firm(cfg, t.rest, t.stack)
  }

  lemma AlikeBelow(s: seq<State>, c: seq<State>)
    requires Alike(s, c) && s != []
    ensures |c| == |s| && Alike(s[..|s| - 1], c[..|c| - 1]) && SameShape(s[|s| - 1], c[|c| - 1])
  {
  }

  /** Two rounds that end in the same way. */
  predicate EndAlike(f: Fed, g: Fed) {
    match f
    case Finished(_) => g.Finished?
    case Going(x) => g.Going? && Alike(x, g.stack)
    case Refused => g.Refused?
  }

  lemma {:induction false} FeedAlike(cfg: Config, s: seq<State>, c: seq<State>, o: Js, p: Js)
    requires Alike(s, c) && (IsKey(s) ==> KeyOk(o) == KeyOk(p))
    ensures EndAlike(Feed(cfg, s, o), Feed(cfg, c, p))
    decreases |s|, 1
  {
    hide Feed, KeyOk, SameShape, EndAlike;
    if s == [] {
      FeedEmpty(cfg, o);
      FeedEmpty(cfg, p);
      assert EndAlike(Finished(o), Finished(p)) by { BothFinish(o, p); }
    } else if s[|s| - 1].ArrayState? {
      ItemAlike(cfg, s, c, o, p);
    } else if s[|s| - 1].key.None? {
      KeyAlike(cfg, s, c, o, p);
    } else {
      ValueAlike(cfg, s, c, o, p);
    }
  }

  lemma BothFinish(o: Js, p: Js)
    ensures EndAlike(Finished(o), Finished(p))
  {
  }

  lemma GoAlike(s: seq<State>, c: seq<State>, a: State, b: State)
    requires Alike(s, c) && SameShape(a, b)
    ensures EndAlike(Going(s + [a]), Going(c + [b]))
  {
    hide Alike, SameShape;
    AlikePush(s, c, a, b);
  }

  lemma ContainerNoKey(o: Js, p: Js)
    requires Container(o) && Container(p)
    ensures KeyOk(o) == KeyOk(p)
  {
  }

  lemma {:induction false} ItemAlike(cfg: Config, s: seq<State>, c: seq<State>, o: Js, p: Js)
    requires Alike(s, c) && s != [] && s[|s| - 1].ArrayState?
    ensures EndAlike(Feed(cfg, s, o), Feed(cfg, c, p))
    decreases |s|, 0
  {
    hide Alike, EndAlike, KeyOk, IsKey;
    AlikeBelow(s, c);
    var top, below, pot, wol := s[|s| - 1], s[..|s| - 1], c[|c| - 1], c[..|c| - 1];
    var x, y := top.items + [o], pot.items + [p];
    if |top.items| + 1 == top.size {
      ContainerNoKey(JArray(x), JArray(y));
      FeedAlike(cfg, below, wol, JArray(x), JArray(y));
    } else {
      GoAlike(below, wol, ArrayState(top.size, x), ArrayState(top.size, y));
    }
  }

  lemma KeyAlike(cfg: Config, s: seq<State>, c: seq<State>, o: Js, p: Js)
    requires Alike(s, c) && s != [] && s[|s| - 1].MapState? && s[|s| - 1].key.None? && KeyOk(o) == KeyOk(p)
    ensures EndAlike(Feed(cfg, s, o), Feed(cfg, c, p))
  {
    hide Alike, KeyOk;
    AlikeBelow(s, c);
    var top, below, pot, wol := s[|s| - 1], s[..|s| - 1], c[|c| - 1], c[..|c| - 1];
    var k, l, n := NameOf(cfg, o), NameOf(cfg, p), top.readCount;
    GoAlike(below, wol, MapState(top.size, Some(k), n, top.props), MapState(top.size, Some(l), n, pot.props));
  }

  lemma {:induction false} ValueAlike(cfg: Config, s: seq<State>, c: seq<State>, o: Js, p: Js)
    requires Alike(s, c) && s != [] && s[|s| - 1].MapState? && s[|s| - 1].key.Some?
    ensures EndAlike(Feed(cfg, s, o), Feed(cfg, c, p))
    decreases |s|, 0
  {
    hide Alike, EndAlike, KeyOk, IsKey, Assign;
    AlikeBelow(s, c);
    var top, below, pot, wol := s[|s| - 1], s[..|s| - 1], c[|c| - 1], c[..|c| - 1];
    var x, y, n := Assign(top.props, top.key.value, o), Assign(pot.props, pot.key.value, p), top.readCount + 1;
    if n == top.size {
      ContainerNoKey(JObject(x), JObject(y));
      FeedAlike(cfg, below, wol, JObject(x), JObject(y));
    } else {
      GoAlike(below, wol, MapState(top.size, None, n, x), MapState(top.size, None, n, y));
    }
  }

  /** A round on the first bytes and one on all of them, on stacks that are alike. */
  predicate Follows(t: Turned, u: Turned, later: seq<byte>) {
    match t
    case On(r, z) => u.On? && u.rest == r + later && Alike(u.stack, z)
    case Stop(Object(_, r)) => u.Stop? && u.out.Object? && u.out.rest == r + later
    case Stop(out) => u == t
  }

  lemma TurnKinds(cfg: Config, b: seq<byte>, k: nat, s: seq<State>, c: seq<State>)
    requires k <= |b| && Alike(s, c) && !ByBits(cfg, b, s)
    ensures
      var t, u := TurnOf(cfg, b[..k], c), TurnOf(cfg, b, s);
      (t == Stop(Insufficient(b[..k], c)) && !Within(u, b, k)) || Follows(t, u, b[k..])
  {
    hide TokenAt, TokenSteady, IsKey, Placed, Alike, KeyOk, ByBits;
    if k > 0 {
      SameKey(s, c);
      var key, h, x, y := IsKey(s), b[0], b[1..], b[..k][1..];
      assert y == x[..k - 1];
      TokenCut(cfg, key, h, x, k - 1);
      var t, u := TokenAt(cfg, key, h, y), TokenAt(cfg, key, h, x);
      if t.Atom? || t.Open? { assert b[..k][1 + t.used..] + b[k..] == b[1 + t.used..]; }
      if t == u {
        if t.Atom? {
          PlacedAlike(cfg, b[..k][1 + t.used..], b[k..], s, c, u.o, t.o);
        } else if t.Open? {
          assert SameShape(t.st, t.st);
          AlikePush(s, c, t.st, t.st);
        }
      } else if !Shortened(t, u, k - 1) {
        TokenText(cfg, key, h, x, k - 1);
        if t.Atom? {
          if t.o != u.o { RetoldKey(cfg, b, s, t.o, u.o); }
          PlacedAlike(cfg, b[..k][1 + t.used..], b[k..], s, c, u.o, t.o);
        }
      } else if u.Atom? {
        PlacedRest(cfg, b[1 + u.used..], s, u.o);
      }
    } else if b != [] && TokenAt(cfg, IsKey(s), b[0], b[1..]).Atom? {
      var u := TokenAt(cfg, IsKey(s), b[0], b[1..]);
      PlacedRest(cfg, b[1 + u.used..], s, u.o);
    }
  }

  lemma PlacedRest(cfg: Config, rest: seq<byte>, s: seq<State>, o: Js)
    ensures
      var t := Placed(cfg, rest, s, o);
      (t.On? ==> t.rest == rest) && (t.Stop? && t.out.Object? ==> t.out.rest == rest)
  {
    hide Feed;
  }

  lemma PlacedAlike(cfg: Config, rest: seq<byte>, later: seq<byte>, s: seq<State>, c: seq<State>, o: Js, p: Js)
    requires Alike(s, c) && (IsKey(s) ==> KeyOk(o) == KeyOk(p))
    ensures Follows(Placed(cfg, rest, c, p), Placed(cfg, rest + later, s, o), later)
  {
    hide Feed, Alike, KeyOk, IsKey;
    FeedAlike(cfg, s, c, o, p);
  }

  lemma RetoldKey(cfg: Config, b: seq<byte>, s: seq<State>, t: Js, u: Js)
    requires t.JString? && u.JString? && t.s != PROTO && b != [] && !ByBits(cfg, b, s)
    requires IsKey(s) ==> TokenAt(cfg, true, b[0], b[1..]).Atom? && TokenAt(cfg, true, b[0], b[1..]).o == u
    requires IsKey(s) ==> !TokenSteady(cfg, true, b[0], b[1..])
    ensures IsKey(s) ==> KeyOk(t) == KeyOk(u)
  {
    hide TokenAt, TokenSteady, IsKey;
  }

  lemma RefusedByBits(cfg: Config, rest: seq<byte>, stack: seq<State>)
    requires ByBits(cfg, rest, stack)
    ensures TurnOf(cfg, rest, stack) == Stop(Invalid)
  {
    hide TokenAt, TokenSteady;
  }

  /** Such a key on the first bytes: not complete, refused, or another key. */
  lemma KeyByBits(cfg: Config, b: seq<byte>, k: nat, s: seq<State>, c: seq<State>)
    requires k <= |b| && Alike(s, c) && ByBits(cfg, b, s)
    ensures
      var t, u := TurnOf(cfg, b[..k], c), Instead(cfg, b, s);
      t == Stop(Insufficient(b[..k], c)) || t == Stop(Invalid) || (t.On? && Follows(t, u, b[k..]))
  {
    hide TokenAt, TokenSteady, Feed, Alike, KeyOk;
    if k > 0 {
      SameKey(s, c);
      var h, x, y := b[0], b[1..], b[..k][1..];
      assert y == x[..k - 1];
      TokenText(cfg, true, h, x, k - 1);
      TokenShows(cfg, true, h, x);
      var t, u := TokenAt(cfg, true, h, y), TokenAt(cfg, true, h, x);
      var v := TokenAt(cfg, true, h, x[..u.used]);
      if t.Atom? {
        assert b[..k][1 + t.used..] + b[k..] == x[t.used..];
        if t.o == u.o {
          FeedAlike(cfg, s, c, u.o, t.o);
          assert Feed(cfg, s, u.o).Refused? by { RefusedByBits(cfg, b, s); }
        } else {
          TextKey(t.o);
          TextKey(v.o);
          FeedAlike(cfg, s, c, v.o, t.o);
          KeyGoes(cfg, c, t.o);
        }
      }
    }
  }

  lemma KeyGoes(cfg: Config, stack: seq<State>, o: Js)
    requires IsKey(stack) && KeyOk(o)
    ensures Feed(cfg, stack, o).Going?
  {
  }

  /** Where the run on the first bytes stands, seen from the run on all of them. */
  lemma {:induction false} RunKinds(cfg: Config, b: seq<byte>, k: nat, s: seq<State>, c: seq<State>)
    returns (at: seq<State>)
    requires k <= |b| && Alike(s, c) && Firm(cfg, b, s)
    ensures
      var a, whole := Run(cfg, b[..k], c), Run(cfg, b, s);
      match a
      case Insufficient(r, z) => Run(cfg, r + b[k..], at) == whole && Alike(at, z) && Firm(cfg, r + b[k..], at)
      case Object(_, r) => whole.Object? && whole.rest == r + b[k..]
      case _ => whole == a
    decreases |b|
  {
    hide TurnOf, ByBits, Alike, Instead;
    var a, later := b[..k], b[k..];
    assert a + later == b;
    at := s;
    StopShrinks(cfg, a, c);
    var t := TurnOf(cfg, a, c);
    if ByBits(cfg, b, s) {
      KeyByBits(cfg, b, k, s, c);
      RefusedByBits(cfg, b, s);
    } else {
      TurnKinds(cfg, b, k, s, c);
    }
    if t.On? {
      var u := if ByBits(cfg, b, s) then Instead(cfg, b, s) else TurnOf(cfg, b, s);
      assert u.rest[..|t.rest|] == t.rest && u.rest[|t.rest|..] == later;
      at := RunKinds(cfg, u.rest, |t.rest|, u.stack, t.stack);
    }
  }

  /** Answers of the same kind: the same, or two objects. */
  predicate SameKind(x: Option<Decoded>, y: Option<Decoded>) {
    x == y || (x.Some? && x.value.Value? && y.Some? && y.value.Value?)
  }

  lemma {:induction false} StreamKinds(cfg: Config, unread: seq<byte>, s: seq<State>, c: seq<State>,
                                       pieces: seq<seq<byte>>)
    requires Run(cfg, unread, c) == Insufficient(unread, c) && Alike(s, c)
    requires (forall p | p in pieces :: p != []) && Firm(cfg, unread + Concat(pieces), s)
    ensures SameKind(Stream(cfg, unread, c, pieces), Judge(Run(cfg, unread + Concat(pieces), s)))
    decreases |pieces|
  {
    hide Run, Firm, Alike;
    if pieces == [] {
      assert unread + Concat(pieces) == unread;
      StillStarved(cfg, unread, s, c);
    } else {
      var a, later := unread + pieces[0], Concat(pieces[1..]);
      var b := a + later;
      assert b == unread + Concat(pieces) && b[..|a|] == a && b[|a|..] == later;
      var at := RunKinds(cfg, b, |a|, s, c);
      match Run(cfg, a, c) {
        case Insufficient(r, z) =>
          LeftInsufficient(cfg, a, c);
          assert forall p | p in pieces[1..] :: p in pieces;
          StreamKinds(cfg, r, at, z, pieces[1..]);
        case Object(o, r) =>
          if |pieces| > 1 {
            assert pieces[1] in pieces && pieces[1..][0] == pieces[1];
          } else {
            assert later == [] && r + later == r;
          }
        case Invalid =>
        case Unclear =>
      }
    }
  }

  lemma StillStarved(cfg: Config, rest: seq<byte>, s: seq<State>, c: seq<State>)
    requires Alike(s, c) && Run(cfg, rest, c) == Insufficient(rest, c)
    ensures Run(cfg, rest, s) == Insufficient(rest, s)
  {
    hide TokenAt, Feed, IsKey, Alike;
    SameKey(s, c);
    RunShorter(cfg, rest, c);
  }

  /** A round that goes on leaves less to read, so a run that ends with all its input unread has no such round. */
  lemma RunShorter(cfg: Config, rest: seq<byte>, c: seq<State>)
    requires Run(cfg, rest, c) == Insufficient(rest, c)
    ensures TurnOf(cfg, rest, c).Stop?
  {
    hide TurnOf;
    var t := TurnOf(cfg, rest, c);
    if t.On? { RunShrinks(cfg, t.rest, t.stack); }
  }

  // ---- a cut that changes the kind of the answer ----

  /** The same bytes on stacks that are alike. */
  lemma {:induction false} SameBytes(cfg: Config, rest: seq<byte>, s: seq<State>, c: seq<State>)
    requires Alike(s, c)
    ensures SameKind(Judge(Run(cfg, rest, c)), Judge(Run(cfg, rest, s)))
    decreases |rest|
  {
    hide TurnOf, Alike;
    TurnSame(cfg, rest, s, c);
    var t, u := TurnOf(cfg, rest, c), TurnOf(cfg, rest, s);
    if t.On? { SameBytes(cfg, t.rest, u.stack, t.stack); }
  }

  lemma TurnSame(cfg: Config, rest: seq<byte>, s: seq<State>, c: seq<State>)
    requires Alike(s, c)
    ensures
      var t, u := TurnOf(cfg, rest, c), TurnOf(cfg, rest, s);
      match t
      case On(r, z) => u.On? && u.rest == r && Alike(u.stack, z)
      case Stop(Insufficient(_, _)) => u.Stop? && u.out.Insufficient?
      case Stop(Object(_, r)) => u.Stop? && u.out.Object? && u.out.rest == r
      case Stop(out) => u == t
  {
    hide TokenAt, IsKey, Feed, Alike, KeyOk;
    SameKey(s, c);
    if rest != [] {
      var t := TokenAt(cfg, IsKey(s), rest[0], rest[1..]);
      if t.Atom? {
        FeedAlike(cfg, s, c, t.o, t.o);
      } else if t.Open? {
        AlikePush(s, c, t.st, t.st);
      }
    }
  }

  /** The pieces that make up `b`. */
  predicate Cuts(pieces: seq<seq<byte>>, b: seq<byte>) { (forall p | p in pieces :: p != []) && Concat(pieces) == b }

  /** On every stack like `s`, the pieces have an answer of another kind than their concatenation. */
  ghost predicate Turns(cfg: Config, pieces: seq<seq<byte>>, b: seq<byte>, s: seq<State>) {
    forall c | Alike(s, c) :: !SameKind(Stream(cfg, [], c, pieces), Judge(Run(cfg, b, s)))
  }

  lemma {:induction false} NotFirm(cfg: Config, b: seq<byte>, s: seq<State>) returns (pieces: seq<seq<byte>>)
    requires !Firm(cfg, b, s)
    ensures pieces != [] && Cuts(pieces, b) && Turns(cfg, pieces, b, s)
    decreases |b|
  {
    hide TurnOf, ByBits, Instead, Alike, Turns, Cuts;
    if !ByBits(cfg, b, s) {
      var u := TurnOf(cfg, b, s);
      var more := NotFirm(cfg, u.rest, u.stack);
      pieces := EarlierRound(cfg, b, s, more);
    } else {
      var u := Instead(cfg, b, s);
      if Run(cfg, u.rest, u.stack) != Invalid {
        pieces := CutBehind(cfg, b, s);
      } else {
        var more := NotFirm(cfg, u.rest, u.stack);
        pieces := CutBefore(cfg, b, s, more);
      }
    }
  }

  /** The first bytes, up to the end of such a key, on any stack like `s`. */
  lemma CutKey(cfg: Config, b: seq<byte>, s: seq<State>, c: seq<State>)
    requires ByBits(cfg, b, s) && Alike(s, c)
    ensures
      var u := Instead(cfg, b, s);
      var k := |b| - |u.rest|;
      && 0 < k < |b| && b[k..] == u.rest
      && var a := Run(cfg, b[..k], c); a.Insufficient? && a.rest == [] && Alike(u.stack, a.stack)
  {
    hide TokenAt, TokenSteady, Feed, Alike, KeyOk, IsKey;
    SameKey(s, c);
    var h, x := b[0], b[1..];
    TokenShows(cfg, true, h, x);
    BehindIsMore(cfg, true, h, x);
    var u := TokenAt(cfg, true, h, x);
    var v := TokenAt(cfg, true, h, x[..u.used]);
    var a := b[..1 + u.used];
    assert a[0] == h && a[1..] == x[..u.used] && a[1 + u.used..] == [] && b[1 + u.used..] == x[u.used..];
    TextKey(v.o);
    KeyGoes(cfg, c, v.o);
    FeedAlike(cfg, s, c, v.o, v.o);
    var z := Feed(cfg, c, v.o).stack;
    assert TurnOf(cfg, a, c) == On([], z);
    NothingLeft(cfg, z);
    hide TurnOf;
    assert Run(cfg, a, c) == Run(cfg, [], z);
  }

  /** A cut behind such a key, if what follows is not malformed. */
  lemma CutBehind(cfg: Config, b: seq<byte>, s: seq<State>) returns (pieces: seq<seq<byte>>)
    requires ByBits(cfg, b, s)
    requires var u := Instead(cfg, b, s); Run(cfg, u.rest, u.stack) != Invalid
    ensures pieces != [] && Cuts(pieces, b) && Turns(cfg, pieces, b, s)
  {
    hide ByBits, Instead, Alike, TurnOf;
    var u := Instead(cfg, b, s);
    var k := |b| - |u.rest|;
    pieces := [b[..k], u.rest];
    CutKey(cfg, b, s, s) by { SelfTwins(s); }
    TwoPieces(b[..k], u.rest);
    assert b[..k] + u.rest == b;
    assert Run(cfg, b, s) == Invalid by { RefusedByBits(cfg, b, s); }
    hide Run;
    forall c | Alike(s, c) ensures !SameKind(Stream(cfg, [], c, pieces), Judge(Run(cfg, b, s))) {
      CutKey(cfg, b, s, c);
      var z := Run(cfg, b[..k], c).stack;
      assert pieces[1..] == [u.rest] && [] + b[..k] == b[..k];
      OneBuffer(cfg, [], z, u.rest);
      assert [] + u.rest == u.rest;
      SameBytes(cfg, u.rest, u.stack, z);
    }
  }

  /** A cut behind such a key, before further cuts. */
  lemma CutBefore(cfg: Config, b: seq<byte>, s: seq<State>, more: seq<seq<byte>>) returns (pieces: seq<seq<byte>>)
    requires ByBits(cfg, b, s)
    requires
      var u := Instead(cfg, b, s);
      Run(cfg, u.rest, u.stack) == Invalid && Cuts(more, u.rest) && Turns(cfg, more, u.rest, u.stack)
    ensures pieces != [] && Cuts(pieces, b) && Turns(cfg, pieces, b, s)
  {
    hide ByBits, Instead, Alike, TurnOf;
    var u := Instead(cfg, b, s);
    var k := |b| - |u.rest|;
    pieces := [b[..k]] + more;
    CutKey(cfg, b, s, s) by { SelfTwins(s); }
    assert pieces[1..] == more && Concat(pieces) == b[..k] + u.rest == b;
    assert Run(cfg, b, s) == Invalid by { RefusedByBits(cfg, b, s); }
    hide Run;
    forall c | Alike(s, c) ensures !SameKind(Stream(cfg, [], c, pieces), Judge(Run(cfg, b, s))) {
      CutKey(cfg, b, s, c);
      assert [] + b[..k] == b[..k];
      assert Stream(cfg, [], c, pieces) == Stream(cfg, [], Run(cfg, b[..k], c).stack, more);
    }
  }

  /** A round before the first of the pieces. */
  lemma EarlierRound(cfg: Config, b: seq<byte>, s: seq<State>, more: seq<seq<byte>>) returns (pieces: seq<seq<byte>>)
    requires !ByBits(cfg, b, s) && TurnOf(cfg, b, s).On?
    requires var u := TurnOf(cfg, b, s); more != [] && Cuts(more, u.rest) && Turns(cfg, more, u.rest, u.stack)
    ensures pieces != [] && Cuts(pieces, b) && Turns(cfg, pieces, b, s)
  {
    hide TurnOf, ByBits, Alike;
    TurnRest(cfg, b, s);
    var u := TurnOf(cfg, b, s);
    var n := |b| - |u.rest|;
    var first := b[..n] + more[0];
    pieces := [first] + more[1..];
    assert more == [more[0]] + more[1..];
    assert b == b[..n] + u.rest && u.rest == more[0] + Concat(more[1..]);
    assert Concat(pieces) == first + Concat(more[1..]) by { assert pieces[1..] == more[1..]; }
    assert first + Concat(more[1..]) == b[..n] + (more[0] + Concat(more[1..]));
    assert b[..|first|] == first && b[|first|..] == Concat(more[1..]);
    assert forall p | p in more[1..] :: p in more;
    forall c | Alike(s, c) ensures !SameKind(Stream(cfg, [], c, pieces), Judge(Run(cfg, b, s))) {
      TurnKinds(cfg, b, |first|, s, c);
      var t := TurnOf(cfg, first, c);
      assert t.rest == more[0] by { SameTail(t.rest, more[0], Concat(more[1..])); }
      SameStream(cfg, c, first, t.stack, more[0], more[1..]);
    }
  }

  lemma SameTail(a: seq<byte>, b: seq<byte>, tail: seq<byte>)
    requires a + tail == b + tail
    ensures a == b
  {
    assert |a + tail| == |a| + |tail| && |b + tail| == |b| + |tail|;
    assert (a + tail)[..|a|] == a && (b + tail)[..|b|] == b;
  }

  lemma SameStream(cfg: Config, c: seq<State>, first: seq<byte>, d: seq<State>, second: seq<byte>, more: seq<seq<byte>>)
    requires TurnOf(cfg, first, c) == On(second, d)
    ensures Stream(cfg, [], c, [first] + more) == Stream(cfg, [], d, [second] + more)
  {
    hide TurnOf;
    var x, y := [first] + more, [second] + more;
    assert x[1..] == more && y[1..] == more && [] + first == first && [] + second == second;
    assert Run(cfg, first, c) == Run(cfg, second, d);
  }

  // ---- the answer ----

  /**
    * Exactly when all streams of some input have answers of the same kind, the same error or an object: if and only if
    * behind every key that is the refused name only because of the bytes behind it the input is malformed anyway.
    */
  lemma KindExactly(cfg: Config, b: seq<byte>)
    ensures
      var answer := Judge(Run(cfg, b, []));
      (forall pieces: seq<seq<byte>> | Cuts(pieces, b) :: SameKind(Stream(cfg, [], [], pieces), answer))
      <==> Firm(cfg, b, [])
  {
    hide Stream, Firm, Run;
    if Firm(cfg, b, []) {
      forall pieces: seq<seq<byte>> | Cuts(pieces, b)
        ensures SameKind(Stream(cfg, [], [], pieces), Judge(Run(cfg, b, [])))
      {
        assert [] + Concat(pieces) == b;
        assert Run(cfg, [], []) == Insufficient([], []) by { NothingToRead(cfg, []); }
        StreamKinds(cfg, [], [], [], pieces);
      }
    } else {
      var pieces := NotFirm(cfg, b, []);
      assert Alike([], []);
    }
  }

  /** Input that is not malformed has no such key. */
  lemma {:induction false} FirmUnlessMalformed(cfg: Config, rest: seq<byte>, stack: seq<State>)
    requires Run(cfg, rest, stack) != Invalid
    ensures Firm(cfg, rest, stack)
    decreases |rest|
  {
    if ByBits(cfg, rest, stack) { RefusedByBits(cfg, rest, stack); }
    hide TurnOf, ByBits;
    var t := TurnOf(cfg, rest, stack);
    if t.On? { FirmUnlessMalformed(cfg, t.rest, t.stack); }
  }

  /**
    * Exactly when the answer to a stream does not depend on where it is cut, for input whose maps repeat no key: an
    * object if and only if no string takes bits from behind its end, an error if and only if the input is firm.
    */
  lemma AnswerExactly(cfg: Config, b: seq<byte>)
    requires NoRepeat(cfg, b, []) && Judge(Run(cfg, b, [])).Some?
    ensures
      var answer := Judge(Run(cfg, b, []));
      (forall pieces: seq<seq<byte>> | Cuts(pieces, b) :: Stream(cfg, [], [], pieces) == answer)
      <==> if answer.value.Value? then Steady(cfg, b, []) else Firm(cfg, b, [])
  {
    hide Run, Steady, NoRepeat, Firm, Stream;
    var answer := Judge(Run(cfg, b, []));
    if !answer.value.Value? {
      KindExactly(cfg, b);
    } else if Steady(cfg, b, []) {
      forall pieces: seq<seq<byte>> | Cuts(pieces, b) ensures Stream(cfg, [], [], pieces) == answer {
        StreamIsWhole(cfg, pieces);
      }
    } else {
      ObjectExactly(cfg, b, answer.value.o);
      var k :| 0 < k < |b| && InTwo(cfg, b, k) != answer;
      TwoPieces(b[..k], b[k..]);
      assert b[..k] + b[k..] == b;
      assert Cuts([b[..k], b[k..]], b);
    }
  }

  // ---- why the conditions are there ----

  /** `"__proto_"` and one more byte, of which the next one makes a letter. */
  const ALMOST: seq<byte> := [0x5f, 0x5f, 0x70, 0x72, 0x6f, 0x74, 0x6f, 0x5f, 0xc1]

  lemma {:induction false} Ascii(bytes: seq<byte>, i: nat, n: nat, end: nat)
    requires i + n <= end <= |bytes| && forall j | i <= j < i + n :: bytes[j] < 0x80
    ensures Decode(bytes, i, end) == bytes[i..i + n] + Decode(bytes, i + n, end)
    decreases n
  {
    if n == 0 {
      assert bytes[i..i] == [];
    } else {
      Ascii(bytes, i + 1, n - 1, end);
      assert UnitsAt(bytes, i) == [bytes[i]];
      assert bytes[i..i + n] == [bytes[i]] + bytes[i + 1..i + n];
    }
  }

  /** The text of this key, with the byte behind it or without. */
  lemma AlmostText(tail: seq<byte>)
    ensures Decode(ALMOST + tail, 0, 9) == PROTO[..8] + [0x40 + Six(ALMOST + tail, 9)]
  {
    var d := ALMOST + tail;
    assert forall j | 0 <= j < 8 :: d[j] == ALMOST[j];
    Ascii(d, 0, 8, 9);
    assert d[8] == 0xc1 && UnitsAt(d, 8) == [0x40 + Six(d, 9)];
    assert Decode(d, 8, 9) == [0x40 + Six(d, 9)] + [];
    assert d[0..8] == PROTO[..8];
  }

  lemma MapOpens(cfg: Config, n: nat, rest: seq<byte>)
    requires 0 < n < 16 && n <= cfg.maxMap
    ensures TurnOf(cfg, [0x80 + n] + rest, []) == On(rest, [MapState(n, None, 0, [])])
  {
    var b := [0x80 + n] + rest;
    assert b[0] == 0x80 + n && b[1..] == rest && b[1 + 0..] == rest;
    assert TokenAt(cfg, false, b[0], rest) == Open(MapState(n, None, 0, []), 0);
    hide TokenAt;
    assert [] + [MapState(n, None, 0, [])] == [MapState(n, None, 0, [])];
  }

  lemma KeyRound(cfg: Config, rest: seq<byte>, m: State)
    requires m.MapState? && m.key.None? && rest != [] && TokenAt(cfg, true, rest[0], rest[1..]).Atom?
    ensures
      var t := TokenAt(cfg, true, rest[0], rest[1..]);
      TurnOf(cfg, rest, [m])
      == if KeyOk(t.o) then On(rest[1 + t.used..], [m.(key := Some(NameOf(cfg, t.o)))]) else Stop(Invalid)
  {
    hide TokenAt, KeyOk;
    assert [m][..0] == [] && IsKey([m]);
  }

  lemma ValueRound(cfg: Config, rest: seq<byte>, m: State)
    requires m.MapState? && m.key.Some? && rest != [] && TokenAt(cfg, false, rest[0], rest[1..]).Atom?
    ensures
      var t := TokenAt(cfg, false, rest[0], rest[1..]);
      var props, r := Assign(m.props, m.key.value, t.o), rest[1 + t.used..];
      TurnOf(cfg, rest, [m])
      == if m.readCount + 1 == m.size then Stop(Object(JObject(props), r))
         else On(r, [MapState(m.size, None, m.readCount + 1, props)])
  {
    hide TokenAt, Assign;
    assert [m][..0] == [] && !IsKey([m]);
    var t := TokenAt(cfg, false, rest[0], rest[1..]);
    FeedEmpty(cfg, JObject(Assign(m.props, m.key.value, t.o)));
  }

  /** A short string that is not cached. */
  lemma ShortString(cfg: Config, key: bool, rest: seq<byte>, n: nat)
    requires cfg.keyMax == 0 && n < 32 && n <= cfg.maxStr && n <= |rest|
    ensures TokenAt(cfg, key, 0xa0 + n, rest) == Atom(JString(Decode(rest, 0, n)), n)
  {
    hide Decode;
  }

  lemma NamedKey(cfg: Config, y: seq<byte>, name: text)
    requires y != [] && TokenAt(cfg, true, y[0], y[1..]) == Atom(JString(name), |y| - 1)
    requires name != PROTO && cfg.maxMap >= 1
    ensures Run(cfg, [0x81] + y, []) == Insufficient([], [MapState(1, Some(name), 0, [])])
  {
    hide TokenAt;
    MapOpens(cfg, 1, y);
    TextKey(JString(name));
    var named := MapState(1, Some(name), 0, []);
    KeyRound(cfg, y, MapState(1, None, 0, []));
    assert y[1 + (|y| - 1)..] == [];
    NothingLeft(cfg, [named]);
    hide TurnOf;
    assert Run(cfg, y, [MapState(1, None, 0, [])]) == Run(cfg, [], [named]);
  }

  lemma RefusedKey(cfg: Config, x: seq<byte>)
    requires x != [] && cfg.maxMap >= 1
    requires TokenAt(cfg, true, x[0], x[1..]).Atom? && TokenAt(cfg, true, x[0], x[1..]).o == JString(PROTO)
    ensures Run(cfg, [0x81] + x, []) == Invalid
  {
    hide TokenAt;
    MapOpens(cfg, 1, x);
    KeyRound(cfg, x, MapState(1, None, 0, []));
    hide TurnOf;
    assert Run(cfg, x, [MapState(1, None, 0, [])]) == Invalid;
  }

  lemma OneNumber(cfg: Config, name: text)
    ensures Run(cfg, [0x1f], [MapState(1, Some(name), 0, [])]) == Object(JObject([(name, JNumber(0x1f))]), [])
  {
    var b: seq<byte>, named := [0x1f], MapState(1, Some(name), 0, []);
    assert b[1..] == [] && b[1 + 0..] == [];
    assert TokenAt(cfg, false, b[0], b[1..]) == Atom(JNumber(0x1f), 0);
    ValueRound(cfg, b, named);
    assert Assign([], name, JNumber(0x1f)) == [(name, JNumber(0x1f))];
  }

  /** A key through which a cut changes the kind of the answer: with 1f behind it it is the refused name. */
  lemma KindDiffers(cfg: Config)
    requires cfg.keyMax == 0 && cfg.maxStr >= 9 && cfg.maxMap >= 1
    ensures
      var b := [0x81] + ([0xa9] + (ALMOST + [0x1f]));
      && Judge(Run(cfg, b, [])) == Some(Malformed)
      && InTwo(cfg, b, 11) == Some(Value(JObject([(PROTO[..8] + [0x40], JNumber(0x1f))])))
  {
    hide Run, InTwo, Decode;
    AlmostTexts();
    KeyDiffers(cfg, ALMOST, PROTO[..8] + [0x40]);
  }

  lemma AlmostTexts()
    ensures Decode(ALMOST + [0x1f], 0, 9) == PROTO && Decode(ALMOST, 0, 9) == PROTO[..8] + [0x40] != PROTO
  {
    hide Decode;
    AlmostText([0x1f]);
    AlmostText([]);
    assert PROTO[..8] + [0x5f] == PROTO && ALMOST + [] == ALMOST;
  }

  lemma KeyDiffers(cfg: Config, key: seq<byte>, name: text)
    requires cfg.keyMax == 0 && cfg.maxStr >= 9 && cfg.maxMap >= 1 && |key| == 9
    requires Decode(key + [0x1f], 0, 9) == PROTO && Decode(key, 0, 9) == name && name != PROTO
    ensures
      var b := [0x81] + ([0xa9] + (key + [0x1f]));
      && Judge(Run(cfg, b, [])) == Some(Malformed)
      && InTwo(cfg, b, 11) == Some(Value(JObject([(name, JNumber(0x1f))])))
  {
    hide TokenAt, Decode, Run;
    var x, y := [0xa9] + (key + [0x1f]), [0xa9] + key;
    assert x[1..] == key + [0x1f] && y[1..] == key;
    ShortString(cfg, true, key + [0x1f], 9);
    ShortString(cfg, true, key, 9);
    RefusedKey(cfg, x);
    NamedKey(cfg, y, name);
    var b := [0x81] + x;
    assert b[..11] == [0x81] + y && b[11..] == [0x1f];
    InTwoIs(cfg, b, 11);
    assert [] + b[11..] == [0x1f];
    OneNumber(cfg, name);
  }

  lemma OneUnit(bytes: seq<byte>)
    requires bytes != []
    ensures Decode(bytes, 0, 1) == UnitsAt(bytes, 0)
  {
    assert Decode(bytes, Span(bytes[0]), 1) == [];
    hide UnitsAt;
    assert UnitsAt(bytes, 0) + [] == UnitsAt(bytes, 0);
  }

  /** A map of two pairs, up to the end of the first. */
  lemma PairRun(cfg: Config, x: seq<byte>, y: seq<byte>, k: text, o: Js)
    requires cfg.maxMap >= 2 && k != PROTO && x != [] && y != []
    requires var t := TokenAt(cfg, true, x[0], x[1..]); t.Atom? && t.o == JString(k) && x[1 + t.used..] == y
    requires var t := TokenAt(cfg, false, y[0], y[1..]); t.Atom? && t.o == o
    ensures
      var later := y[1 + TokenAt(cfg, false, y[0], y[1..]).used..];
      Run(cfg, [0x82] + x, []) == Run(cfg, later, [MapState(2, None, 1, [(k, o)])])
    ensures !TokenSteady(cfg, false, y[0], y[1..]) ==> !Steady(cfg, [0x82] + x, [])
  {
    hide TokenAt, TokenSteady, TurnOf, Doomed, KeyOk, IsKey;
    var open, named := MapState(2, None, 0, []), MapState(2, Some(k), 0, []);
    MapOpens(cfg, 2, x);
    TextKey(JString(k));
    KeyRound(cfg, x, open);
    ValueRound(cfg, y, named);
    assert Assign([], k, o) == [(k, o)];
    NotDoomed(cfg, named);
    assert Run(cfg, [0x82] + x, []) == Run(cfg, x, [open]) == Run(cfg, y, [named]);
    if !TokenSteady(cfg, false, y[0], y[1..]) {
      assert !SteadyHere(cfg, y, [named]);
      assert !Steady(cfg, y, [named]);
      assert !Steady(cfg, x, [open]);
    }
  }

  lemma NotDoomed(cfg: Config, m: State)
    requires m.MapState? && m.key.Some?
    ensures !Doomed(cfg, [m]) && !IsKey([m])
  {
    assert [m][..0] == [];
    FeedEmpty(cfg, JObject(Assign(m.props, m.key.value, JString([]))));
  }

  lemma PairTokens(cfg: Config, y: seq<byte>, later: seq<byte>)
    requires cfg.keyMax == 0 && cfg.maxStr >= 1
    ensures TokenAt(cfg, true, 0xa1, [0x6b] + y) == Atom(JString([0x6b]), 1)
    ensures TokenAt(cfg, false, 0xa1, [0xc3] + later) == Atom(JString([0xc0 + Six([0xc3] + later, 1)]), 1)
    ensures later != [] && later[0] % 0x40 != 0 ==> !TokenSteady(cfg, false, 0xa1, [0xc3] + later)
  {
    OneUnit([0x6b] + y);
    OneUnit([0xc3] + later);
    ShortString(cfg, true, [0x6b] + y, 1);
    ShortString(cfg, false, [0xc3] + later, 1);
    ShortSteady(cfg, false, [0xc3] + later, 1);
    hide TokenAt, TokenSteady, Decode, Quiet;
    if later != [] && later[0] % 0x40 != 0 { NotQuiet(later); }
  }

  lemma ShortSteady(cfg: Config, key: bool, rest: seq<byte>, n: nat)
    requires n < 32 && n <= |rest|
    ensures TokenSteady(cfg, key, 0xa0 + n, rest) <==> Quiet(rest, 0, n)
  {
    hide Quiet;
  }

  lemma NotQuiet(later: seq<byte>)
    requires later != [] && later[0] % 0x40 != 0
    ensures !Quiet([0xc3] + later, 0, 1)
  {
    var d := [0xc3] + later;
    assert Span(d[0]) == 2;
    assert LastEnd(d, 2, 1) == 2;
    assert LastEnd(d, 0, 1) == 2;
    assert d[1] == later[0];
  }

  /** The key `k` and a string of the byte c3, whatever follows. */
  lemma FirstPair(cfg: Config, later: seq<byte>)
    requires cfg.keyMax == 0 && cfg.maxStr >= 1 && cfg.maxMap >= 2
    ensures Run(cfg, [0x82] + ([0xa1, 0x6b] + ([0xa1, 0xc3] + later)), [])
         == Run(cfg, later, [MapState(2, None, 1, [([0x6b], JString([0xc0 + Six([0xc3] + later, 1)]))])])
    ensures
      later != [] && later[0] % 0x40 != 0 ==> !Steady(cfg, [0x82] + ([0xa1, 0x6b] + ([0xa1, 0xc3] + later)), [])
  {
    hide TokenAt, TokenSteady, Run, Steady;
    var y := [0xa1, 0xc3] + later;
    var x := [0xa1, 0x6b] + y;
    assert x[1..] == [0x6b] + y && x[1 + 1..] == y && y[1..] == [0xc3] + later && y[1 + 1..] == later;
    PairTokens(cfg, y, later);
    PairRun(cfg, x, y, [0x6b], JString([0xc0 + Six([0xc3] + later, 1)]));
  }

  /** The second pair has the same key, so nothing is left of the first. */
  lemma SecondPair(cfg: Config, o: Js)
    requires cfg.keyMax == 0 && cfg.maxStr >= 1
    ensures Run(cfg, [0xa1, 0x6b, 0x05], [MapState(2, None, 1, [([0x6b], o)])])
         == Object(JObject([([0x6b], JNumber(5))]), [])
  {
    var x: seq<byte>, y: seq<byte> := [0xa1, 0x6b, 0x05], [0x05];
    var m, named := MapState(2, None, 1, [([0x6b], o)]), MapState(2, Some([0x6b]), 1, [([0x6b], o)]);
    assert x[1..] == [0x6b, 0x05] && x[1 + 1..] == y && y[1..] == [] && y[1 + 0..] == [];
    OneUnit([0x6b, 0x05]);
    ShortString(cfg, true, [0x6b, 0x05], 1);
    assert TokenAt(cfg, false, 0x05, []) == Atom(JNumber(5), 0);
    hide TokenAt, Decode;
    TextKey(JString([0x6b]));
    KeyRound(cfg, x, m);
    ValueRound(cfg, y, named);
    assert Assign([([0x6b], o)], [0x6b], JNumber(5)) == [([0x6b], JNumber(5))];
    hide TurnOf;
    assert Run(cfg, x, [m]) == Run(cfg, y, [named]);
  }

  /** A text that depends on the cut need not show in the answer if its key is repeated. */
  lemma OverwrittenIsGone(cfg: Config)
    requires cfg.keyMax == 0 && cfg.maxStr >= 1 && cfg.maxMap >= 2
    ensures
      var b := [0x82] + ([0xa1, 0x6b] + ([0xa1, 0xc3] + [0xa1, 0x6b, 0x05]));
      !Steady(cfg, b, []) && Judge(Run(cfg, b, [])) == InTwo(cfg, b, 5) == Some(Value(JObject([([0x6b], JNumber(5))])))
  {
    hide Run, Steady, InTwo;
    var later: seq<byte> := [0xa1, 0x6b, 0x05];
    var b := [0x82] + ([0xa1, 0x6b] + ([0xa1, 0xc3] + later));
    FirstPair(cfg, later);
    FirstPair(cfg, []);
    assert b[..5] == [0x82] + ([0xa1, 0x6b] + ([0xa1, 0xc3] + [])) && b[5..] == later;
    SecondPair(cfg, JString([0xc0 + Six([0xc3] + later, 1)]));
    SecondPair(cfg, JString([0xc0 + Six([0xc3], 1)]));
    assert [0xc3] + [] == [0xc3];
    InTwoIs(cfg, b, 5);
    var z := [MapState(2, None, 1, [([0x6b], JString([0xc0 + Six([0xc3], 1)]))])];
    assert Run(cfg, [], z) == Insufficient([], z) by { NothingToRead(cfg, z); }
    assert [] + later == later;
  }

  lemma NothingToRead(cfg: Config, stack: seq<State>)
    ensures Run(cfg, [], stack) == Insufficient([], stack)
  {
    NothingLeft(cfg, stack);
  }
}
