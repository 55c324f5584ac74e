/** What the end of a buffer changes: which objects depend on where a stream is cut. */
module JsCut {
  import opened Bytes
  import opened Msgpack
  import opened Mpack
  import A = MpackAgree
  import opened JsUtf8
  import opened JsUtf8Theorems
  import opened JsDecode

  // ---- one token ----

  /** No text is made of bits from behind the string. */
  predicate StringSteady(cfg: Config, key: bool, rest: seq<byte>, n: nat, header: nat) {
    header + n <= |rest| && ByHand(cfg, key, n) ==> Quiet(rest, header, header + n)
  }

  predicate TokenSteady(cfg: Config, key: bool, h: byte, rest: seq<byte>) {
    if 0xa0 <= h < 0xc0 then StringSteady(cfg, key, rest, h - 0xa0, 0)
    else if 0xd9 <= h <= 0xdb then
      |rest| < StringWidth(h) || StringSteady(cfg, key, rest, Load(rest[..StringWidth(h)]), StringWidth(h))
    else true
  }

  function StringWidth(h: byte): nat { if h == 0xd9 then 1 else if h == 0xda then 2 else 4 }

  /** Token `t` is token `u` when only `k` bytes are there: the same, or not complete. */
  predicate Shortened(t: Token, u: Token, k: nat) {
    t == u || (t.More? && !((u.Atom? || u.Open?) && u.used <= k))
  }

  lemma StringCut(cfg: Config, key: bool, b: seq<byte>, n: nat, header: nat, k: nat)
    requires k <= |b|
    ensures
      var u := StringToken(cfg, key, b, n, header);
      Shortened(StringToken(cfg, key, b[..k], n, header), u, k) || (u.Atom? && !StringSteady(cfg, key, b, n, header))
  {
    if header + n <= k {
      hide Decode, Whole, Quiet;
      var a, end := b[..k], header + n;
      assert a[header..end] == b[header..end];
      WholeSlice(a, header, end, a[header..end], 0);
      WholeSlice(b, header, end, b[header..end], 0);
      if Quiet(b, header, end) { CutDecode(b, header, end, k); }
    }
  }

  lemma StringShows(cfg: Config, key: bool, b: seq<byte>, n: nat, header: nat)
    requires StringToken(cfg, key, b, n, header).Atom? && !StringSteady(cfg, key, b, n, header)
    ensures
      var u := StringToken(cfg, key, b, n, header);
      var t := StringToken(cfg, key, b[..u.used], n, header);
      t.Atom? && t.used == u.used && t.o.JString? && u.o.JString? && t.o != u.o && t.o.s != PROTO
  {
    hide Decode, Whole;
    var end := header + n;
    var a := b[..end];
    assert a[header..end] == b[header..end];
    WholeSlice(a, header, end, a[header..end], 0);
    WholeSlice(b, header, end, b[header..end], 0);
    CutExactly(b, header, end);
    CutLast(b, header, end, end);
    RaggedEnd(a, header, end);
  }

  lemma BinaryCut(cfg: Config, b: seq<byte>, n: nat, header: nat, k: nat)
    requires k <= |b|
    ensures Shortened(BinaryToken(cfg, b[..k], n, header), BinaryToken(cfg, b, n, header), k)
  {
    if header + n <= k { assert b[..k][header..header + n] == b[header..header + n]; }
  }

  lemma ExtensionCut(cfg: Config, b: seq<byte>, n: nat, header: nat, k: nat)
    requires k <= |b|
    ensures Shortened(ExtensionToken(cfg, b[..k], n, header), ExtensionToken(cfg, b, n, header), k)
  {
    BinaryCut(cfg, b, n, header + 1, k);
  }

  lemma NumberCut(b: seq<byte>, w: nat, tp: Tp, k: nat)
    requires k <= |b| && (tp.F64? || tp.U64? || tp.I64?)
    ensures Shortened(NumberToken(b[..k], w, tp), NumberToken(b, w, tp), k)
  {
    if w <= k { assert b[..k][..w] == b[..w]; }
  }

  lemma SizedCut(cfg: Config, key: bool, b: seq<byte>, w: nat, kind: Kind, k: nat)
    requires k <= |b| && !kind.String?
    ensures Shortened(SizedToken(cfg, key, b[..k], w, kind), SizedToken(cfg, key, b, w, kind), k)
  {
    if w <= k {
      assert b[..k][..w] == b[..w];
      var n := Load(b[..w]);
      hide BinaryToken, ExtensionToken;
      BinaryCut(cfg, b, n, w, k);
      ExtensionCut(cfg, b, n, w, k);
    } else if w <= |b| {
      hide Load;
    }
  }

  lemma SizedStringCut(cfg: Config, key: bool, b: seq<byte>, w: nat, k: nat)
    requires k <= |b|
    ensures
      var u := SizedToken(cfg, key, b, w, String);
      || Shortened(SizedToken(cfg, key, b[..k], w, String), u, k)
      || (u.Atom? && w <= |b| && !StringSteady(cfg, key, b, Load(b[..w]), w))
  {
    if w <= k {
      assert b[..k][..w] == b[..w];
      hide StringToken, StringSteady;
      StringCut(cfg, key, b, Load(b[..w]), w, k);
    } else if w <= |b| {
      hide Load;
    }
  }

  /** A token whose text has no bits from behind it is the same token wherever the input is cut, or is cut off. */
  lemma TokenCut(cfg: Config, key: bool, h: byte, b: seq<byte>, k: nat)
    requires k <= |b|
    ensures
      var u := TokenAt(cfg, key, h, b);
      Shortened(TokenAt(cfg, key, h, b[..k]), u, k) || (u.Atom? && !TokenSteady(cfg, key, h, b))
  {
    hide StringToken, SizedToken, NumberToken, ExtensionToken, StringSteady;
    if 0xa0 <= h < 0xc0 {
      StringCut(cfg, key, b, h - 0xa0, 0, k);
    } else if 0xd9 <= h <= 0xdb {
      SizedStringCut(cfg, key, b, StringWidth(h), k);
    } else if 0xca <= h <= 0xd3 {
      NumberCut(b, A.NumberWidth(h), A.NumberType(h), k);
    } else if 0xd4 <= h <= 0xd8 {
      ExtensionCut(cfg, b, FixExt(h), 0, k);
    } else if 0xc4 <= h <= 0xc9 || 0xdc <= h <= 0xdf {
      SizedCut(cfg, key, b, A.SizeWidth(h), SizedKind(h), k);
    }
  }

  function SizedKind(h: byte): Kind {
    if h <= 0xc6 then Binary else if h <= 0xc9 then Extension else if h <= 0xdb then String
    else if h <= 0xdd then Arrays else Maps
  }

  /** Otherwise a cut behind the string shows in its text. */
  lemma TokenShows(cfg: Config, key: bool, h: byte, b: seq<byte>)
    requires TokenAt(cfg, key, h, b).Atom? && !TokenSteady(cfg, key, h, b)
    ensures
      var u := TokenAt(cfg, key, h, b);
      var t := TokenAt(cfg, key, h, b[..u.used]);
      t.Atom? && t.used == u.used && t.o.JString? && u.o.JString? && t.o != u.o && t.o.s != PROTO
  {
    hide StringToken, StringSteady;
    if 0xa0 <= h < 0xc0 {
      StringShows(cfg, key, b, h - 0xa0, 0);
    } else {
      var w := StringWidth(h);
      StringShows(cfg, key, b, Load(b[..w]), w);
      var u := StringToken(cfg, key, b, Load(b[..w]), w);
      UsedBehind(cfg, key, b, Load(b[..w]), w);
      assert b[..u.used][..w] == b[..w];
    }
  }

  lemma UsedBehind(cfg: Config, key: bool, b: seq<byte>, n: nat, header: nat)
    ensures var t := StringToken(cfg, key, b, n, header); t.Atom? ==> t.used >= header
  {
  }

  // ---- one round ----

  /** A string is refused whatever its text: it completes a container where a key has to stand. */
  predicate Doomed(cfg: Config, stack: seq<State>) { Feed(cfg, stack, JString([])).Refused? }

  predicate Container(o: Js) { o.JArray? || o.JObject? }

  lemma {:induction false} ContainersAlike(cfg: Config, stack: seq<State>, a: Js, b: Js)
    requires Container(a) && Container(b)
    ensures Feed(cfg, stack, a).Refused? == Feed(cfg, stack, b).Refused?
    ensures a != b && Feed(cfg, stack, a) == Feed(cfg, stack, b) ==> Feed(cfg, stack, a).Refused?
    decreases |stack|
  {
    if stack != [] {
      var top, below := stack[|stack| - 1], stack[..|stack| - 1];
      match top {
        case ArrayState(size, items) => ContainersAlike(cfg, below, JArray(items + [a]), JArray(items + [b]));
          LastTells(items, a, b);
          PushTells(below, ArrayState(size, items + [a]), ArrayState(size, items + [b]));
        case MapState(size, None, readCount, props) =>
        case MapState(size, Some(k), readCount, props) =>
          ContainersAlike(cfg, below, JObject(Assign(props, k, a)), JObject(Assign(props, k, b)));
          AssignTells(props, k, a, b);
          PushTells(below, MapState(size, None, readCount + 1, Assign(props, k, a)),
            MapState(size, None, readCount + 1, Assign(props, k, b)));
      }
    }
  }

  lemma LastTells(items: seq<Js>, a: Js, b: Js)
    ensures items + [a] == items + [b] ==> a == b
  {
    assert (items + [a])[|items|] == a && (items + [b])[|items|] == b;
  }

  lemma PushTells(below: seq<State>, a: State, b: State)
    ensures below + [a] == below + [b] ==> a == b
  {
    assert (below + [a])[|below|] == a && (below + [b])[|below|] == b;
  }

  lemma {:induction false} AssignTells(props: seq<(text, Js)>, k: text, a: Js, b: Js)
    ensures Assign(props, k, a) == Assign(props, k, b) ==> a == b
  {
    var x, y := Assign(props, k, a), Assign(props, k, b);
    if props == [] || props[0].0 == k {
      assert x[0] == (k, a) && y[0] == (k, b);
    } else {
      AssignTells(props[1..], k, a, b);
      assert x[1..] == Assign(props[1..], k, a) && y[1..] == Assign(props[1..], k, b);
    }
  }

  /** Different texts are told apart where they go, except where every string is refused. */
  lemma TextsTell(cfg: Config, stack: seq<State>, s: text, t: text)
    ensures Doomed(cfg, stack) ==> Feed(cfg, stack, JString(s)).Refused?
    ensures s != PROTO && Feed(cfg, stack, JString(s)).Refused? ==> Doomed(cfg, stack)
    ensures s != t && Feed(cfg, stack, JString(s)) == Feed(cfg, stack, JString(t)) ==> Doomed(cfg, stack)
  {
    if stack != [] {
      var top, below := stack[|stack| - 1], stack[..|stack| - 1];
      match top {
        case ArrayState(size, items) =>
          ContainersAlike(cfg, below, JArray(items + [JString(s)]), JArray(items + [JString(t)]));
          ContainersAlike(cfg, below, JArray(items + [JString(s)]), JArray(items + [JString([])]));
          LastTells(items, JString(s), JString(t));
          PushTells(below, ArrayState(size, items + [JString(s)]), ArrayState(size, items + [JString(t)]));
        case MapState(size, None, readCount, props) =>
          PushTells(below, MapState(size, Some(s), readCount, props), MapState(size, Some(t), readCount, props));
        case MapState(size, Some(k), readCount, props) =>
          var x, y, z := Assign(props, k, JString(s)), Assign(props, k, JString(t)), Assign(props, k, JString([]));
          ContainersAlike(cfg, below, JObject(x), JObject(y));
          ContainersAlike(cfg, below, JObject(x), JObject(z));
          AssignTells(props, k, JString(s), JString(t));
          PushTells(below, MapState(size, None, readCount + 1, x), MapState(size, None, readCount + 1, y));
      }
    }
  }

  /** The token at the beginning is the same wherever the input is cut behind it, or it is refused anyway. */
  predicate SteadyHere(cfg: Config, rest: seq<byte>, stack: seq<State>) {
    rest != [] && TokenAt(cfg, IsKey(stack), rest[0], rest[1..]).Atom? && !Doomed(cfg, stack) ==>
      TokenSteady(cfg, IsKey(stack), rest[0], rest[1..])
  }

  /** The same end of a round, with more input behind it. */
  function Later(t: Turned, more: seq<byte>): Turned {
    match t
    case On(r, st) => On(r + more, st)
    case Stop(Object(o, r)) => Stop(Object(o, r + more))
    case Stop(_) => t
  }

  /** The round takes no more than the first `k` bytes of `b`. */
  predicate Within(t: Turned, b: seq<byte>, k: nat) {
    match t
    case On(r, _) => |b| - |r| <= k
    case Stop(Object(_, r)) => |b| - |r| <= k
    case Stop(_) => false
  }

  /** A round on the first bytes of the input: the round on all of it, or the token is cut off. */
  lemma TurnCut(cfg: Config, b: seq<byte>, k: nat, stack: seq<State>)
    requires k <= |b| && SteadyHere(cfg, b, stack)
    ensures
      var t, u := TurnOf(cfg, b[..k], stack), TurnOf(cfg, b, stack);
      u == Later(t, b[k..]) || (t == Stop(Insufficient(b[..k], stack)) && !Within(u, b, k))
  {
    hide TokenAt, TokenSteady, IsKey, Feed;
    if k > 0 {
      var key, h, x, y := IsKey(stack), b[0], b[1..], b[..k][1..];
      assert y == x[..k - 1];
      TokenCut(cfg, key, h, x, k - 1);
      var t, u := TokenAt(cfg, key, h, y), TokenAt(cfg, key, h, x);
      if t == u {
        if t.Atom? || t.Open? { assert b[..k][1 + t.used..] + b[k..] == b[1 + t.used..]; }
      } else if !Shortened(t, u, k - 1) {
        DoomedCut(cfg, key, h, x, k - 1, stack);
      }
    }
  }

  lemma StringText(cfg: Config, key: bool, b: seq<byte>, n: nat, header: nat, k: nat)
    requires k <= |b| && StringToken(cfg, key, b, n, header).Atom?
    ensures
      var t, u := StringToken(cfg, key, b[..k], n, header), StringToken(cfg, key, b, n, header);
      u.used >= header && u.o.JString? && if k < u.used then t.More? else Retold(t, u)
  {
    if header + n <= k {
      hide Decode, Whole, LastEnd;
      var a, end := b[..k], header + n;
      assert a[header..end] == b[header..end];
      WholeSlice(a, header, end, a[header..end], 0);
      WholeSlice(b, header, end, b[header..end], 0);
      CutLast(b, header, end, k);
      if LastEnd(b, header, end) <= k { NothingMissing(b, header, end, k); } else { RaggedEnd(a, header, end); }
    }
  }

  /** The same string, perhaps with another text, which is then not the name that is refused. */
  predicate Retold(t: Token, u: Token) {
    t.Atom? && t.o.JString? && u.Atom? && t.used == u.used && (t.o == u.o || t.o.s != PROTO)
  }

  /** Whatever its text, the string is complete at the same place. */
  lemma TokenText(cfg: Config, key: bool, h: byte, b: seq<byte>, k: nat)
    requires k <= |b| && TokenAt(cfg, key, h, b).Atom? && !TokenSteady(cfg, key, h, b)
    ensures
      var t, u := TokenAt(cfg, key, h, b[..k]), TokenAt(cfg, key, h, b);
      u.o.JString? && if k < u.used then t.More? else Retold(t, u)
  {
    hide StringToken, StringSteady;
    if 0xa0 <= h < 0xc0 {
      StringText(cfg, key, b, h - 0xa0, 0, k);
    } else {
      var w := StringWidth(h);
      StringText(cfg, key, b, Load(b[..w]), w, k);
      if w <= k { assert b[..k][..w] == b[..w]; }
    }
  }

  /** Where every string is refused it does not matter what the text is. */
  lemma DoomedCut(cfg: Config, key: bool, h: byte, b: seq<byte>, k: nat, stack: seq<State>)
    requires k <= |b| && TokenAt(cfg, key, h, b).Atom? && !TokenSteady(cfg, key, h, b) && Doomed(cfg, stack)
    ensures
      var t, u := TokenAt(cfg, key, h, b[..k]), TokenAt(cfg, key, h, b);
      && Feed(cfg, stack, u.o).Refused?
      && (t.More? || (t.Atom? && Feed(cfg, stack, t.o).Refused?))
  {
    hide Feed, TokenAt, TokenSteady, Doomed;
    TokenText(cfg, key, h, b, k);
    var t, u := TokenAt(cfg, key, h, b[..k]), TokenAt(cfg, key, h, b);
    TextsTell(cfg, stack, u.o.s, u.o.s);
    if t.Atom? { TextsTell(cfg, stack, t.o.s, t.o.s); }
  }

  // ---- whole runs ----

  /** No text of the run is made of bits from behind its string. */
  predicate Steady(cfg: Config, rest: seq<byte>, stack: seq<State>)
    decreases |rest|
  {
    && SteadyHere(cfg, rest, stack)
    && var t := TurnOf(cfg, rest, stack); t.On? ==> Steady(cfg, t.rest, t.stack)
  }

  /** The run on `rest` under `stack` comes to the point where `r` is unread under `st`. */
  predicate Reaches(cfg: Config, rest: seq<byte>, stack: seq<State>, r: seq<byte>, st: seq<State>)
    decreases |rest|
  {
    || (rest == r && stack == st)
    || var t := TurnOf(cfg, rest, stack); t.On? && Reaches(cfg, t.rest, t.stack, r, st)
  }

  /** What the run on `a` comes to is a point of the run on `a + later`, or its end. */
  predicate Resumes(cfg: Config, a: seq<byte>, later: seq<byte>, stack: seq<State>) {
    match Run(cfg, a, stack)
    case Insufficient(r, st) => Reaches(cfg, a + later, stack, r + later, st)
    case Object(o, r) => Run(cfg, a + later, stack) == Object(o, r + later)
    case out => Run(cfg, a + later, stack) == out
  }

  lemma {:induction false} RunCut(cfg: Config, b: seq<byte>, k: nat, stack: seq<State>)
    requires k <= |b| && Steady(cfg, b, stack)
    ensures Resumes(cfg, b[..k], b[k..], stack)
    decreases |b|
  {
    hide TurnOf, SteadyHere;
    var a, later := b[..k], b[k..];
    assert a + later == b;
    StopShrinks(cfg, a, stack);
    TurnCut(cfg, b, k, stack);
    var t := TurnOf(cfg, a, stack);
    if t.On? {
      assert (t.rest + later)[..|t.rest|] == t.rest && (t.rest + later)[|t.rest|..] == later;
      RunCut(cfg, t.rest + later, |t.rest|, t.stack);
    }
  }

  lemma {:induction false} ReachesLess(cfg: Config, rest: seq<byte>, stack: seq<State>, r: seq<byte>, st: seq<State>)
    requires Reaches(cfg, rest, stack, r, st)
    ensures |r| <= |rest| && (|r| == |rest| ==> r == rest && st == stack)
    ensures Run(cfg, r, st) == Run(cfg, rest, stack)
    ensures Steady(cfg, rest, stack) ==> Steady(cfg, r, st)
    decreases |rest|
  {
    hide TurnOf, SteadyHere;
    if !(rest == r && stack == st) {
      var t := TurnOf(cfg, rest, stack);
      ReachesLess(cfg, t.rest, t.stack, r, st);
    }
  }

  /** The place behind a string that has bits from there. */
  lemma ShowsHere(cfg: Config, b: seq<byte>, stack: seq<State>) returns (k: nat)
    requires !SteadyHere(cfg, b, stack)
    ensures k <= |b| && !Resumes(cfg, b[..k], b[k..], stack)
  {
    hide TokenAt, TokenSteady, IsKey, Feed, Doomed;
    var key, h, x := IsKey(stack), b[0], b[1..];
    TokenShows(cfg, key, h, x);
    var u := TokenAt(cfg, key, h, x);
    var t := TokenAt(cfg, key, h, x[..u.used]);
    k := 1 + u.used;
    var a, later := b[..k], b[k..];
    assert a[0] == h && a[1..] == x[..u.used] && a + later == b && a[1 + u.used..] == [];
    TextsTell(cfg, stack, t.o.s, u.o.s);
    assert TurnOf(cfg, a, stack) == Placed(cfg, [], stack, t.o);
    assert TurnOf(cfg, b, stack) == Placed(cfg, later, stack, u.o);
    hide TurnOf;
    assert [] + later == later;
    if Resumes(cfg, a, later, stack) {
      var f, g := Feed(cfg, stack, t.o), Feed(cfg, stack, u.o);
      if f.Going? {
        assert Run(cfg, a, stack) == Insufficient([], f.stack) by { NothingLeft(cfg, f.stack); }
        if g.Going? { ReachesLess(cfg, later, g.stack, later, f.stack); }
      } else {
        FinishAlike(cfg, stack, t.o.s, u.o.s);
      }
      assert false;
    }
  }

  lemma NothingLeft(cfg: Config, stack: seq<State>)
    ensures TurnOf(cfg, [], stack) == Stop(Insufficient([], stack))
  {
  }

  /** Whether an object is finished does not depend on a text. */
  lemma {:induction false} ContainersFinish(cfg: Config, stack: seq<State>, a: Js, b: Js)
    requires Container(a) && Container(b)
    ensures Feed(cfg, stack, a).Finished? == Feed(cfg, stack, b).Finished?
    decreases |stack|
  {
    if stack != [] {
      var top, below := stack[|stack| - 1], stack[..|stack| - 1];
      match top {
        case ArrayState(size, items) => ContainersFinish(cfg, below, JArray(items + [a]), JArray(items + [b]));
        case MapState(size, None, readCount, props) =>
        case MapState(size, Some(k), readCount, props) =>
          ContainersFinish(cfg, below, JObject(Assign(props, k, a)), JObject(Assign(props, k, b)));
      }
    }
  }

  lemma FinishAlike(cfg: Config, stack: seq<State>, s: text, t: text)
    ensures Feed(cfg, stack, JString(s)).Finished? == Feed(cfg, stack, JString(t)).Finished?
  {
    if stack != [] {
      var top, below := stack[|stack| - 1], stack[..|stack| - 1];
      match top {
        case ArrayState(size, items) =>
          ContainersFinish(cfg, below, JArray(items + [JString(s)]), JArray(items + [JString(t)]));
        case MapState(size, None, readCount, props) =>
        case MapState(size, Some(k), readCount, props) =>
          ContainersFinish(cfg, below, JObject(Assign(props, k, JString(s))), JObject(Assign(props, k, JString(t))));
      }
    }
  }

  /** A run that is not steady has a place where a cut shows. */
  lemma {:induction false} Shows(cfg: Config, b: seq<byte>, stack: seq<State>) returns (k: nat)
    requires !Steady(cfg, b, stack)
    ensures k <= |b| && !Resumes(cfg, b[..k], b[k..], stack)
    decreases |b|
  {
    hide TurnOf, SteadyHere, Resumes;
    if !SteadyHere(cfg, b, stack) {
      k := ShowsHere(cfg, b, stack);
    } else {
      var u := TurnOf(cfg, b, stack);
      var j := Shows(cfg, u.rest, u.stack);
      k := |b| - |u.rest| + j;
      TurnRest(cfg, b, stack);
      TurnCut(cfg, b, k, stack);
      assert u.rest[j..] == b[k..] && b[..k] + b[k..] == b;
      var t := TurnOf(cfg, b[..k], stack);
      SamePrefix(t.rest, u.rest, b[k..], j);
      ResumesOn(cfg, b[..k], b[k..], stack);
    }
  }

  lemma SamePrefix(a: seq<byte>, b: seq<byte>, later: seq<byte>, j: nat)
    requires a + later == b && j <= |b| && b[j..] == later
    ensures a == b[..j]
  {
    assert |a| == j;
    assert (a + later)[..|a|] == a;
  }

  lemma TurnRest(cfg: Config, b: seq<byte>, stack: seq<State>)
    ensures var u := TurnOf(cfg, b, stack); u.On? ==> u.rest == b[|b| - |u.rest|..]
  {
    hide TokenAt, Feed, IsKey;
  }

  /** Whether a cut shows is the same after a round that does not reach it. */
  lemma ResumesOn(cfg: Config, a: seq<byte>, later: seq<byte>, stack: seq<State>)
    requires TurnOf(cfg, a, stack).On? && TurnOf(cfg, a + later, stack) == Later(TurnOf(cfg, a, stack), later)
    ensures var t := TurnOf(cfg, a, stack); Resumes(cfg, a, later, stack) ==> Resumes(cfg, t.rest, later, t.stack)
  {
    hide TurnOf;
    var t := TurnOf(cfg, a, stack);
    RunShrinks(cfg, t.rest, t.stack);
  }

  lemma {:induction false} RunShrinks(cfg: Config, rest: seq<byte>, stack: seq<State>)
    ensures var r := Run(cfg, rest, stack); r.Insufficient? ==> |r.rest| <= |rest|
    decreases |rest|
  {
    StopShrinks(cfg, rest, stack);
    hide TurnOf;
    var t := TurnOf(cfg, rest, stack);
    if t.On? { RunShrinks(cfg, t.rest, t.stack); }
  }

  lemma StopShrinks(cfg: Config, rest: seq<byte>, stack: seq<State>)
    ensures
      var t := TurnOf(cfg, rest, stack);
      t.Stop? && t.out.Insufficient? ==> t.out.rest == rest && t.out.stack == stack
  {
    hide TokenAt, Feed, IsKey;
  }

  /**
    * Exactly when it does not matter where the input is cut: every cut leads back into the run on the whole input
    * if and only if no string of that run takes bits from behind its end.
    */
  lemma SteadyExactly(cfg: Config, b: seq<byte>, stack: seq<State>)
    ensures Steady(cfg, b, stack) <==> forall k | 0 <= k <= |b| :: Resumes(cfg, b[..k], b[k..], stack)
  {
    hide Steady, Resumes;
    if Steady(cfg, b, stack) {
      forall k | 0 <= k <= |b| ensures Resumes(cfg, b[..k], b[k..], stack) { RunCut(cfg, b, k, stack); }
    } else {
      var k := Shows(cfg, b, stack);
    }
  }

  // ---- streams ----

  /** Non-empty buffers give what their concatenation gives. */
  lemma {:induction false} StreamFollows(cfg: Config, unread: seq<byte>, stack: seq<State>, pieces: seq<seq<byte>>)
    requires Run(cfg, unread, stack) == Insufficient(unread, stack)
    requires (forall p | p in pieces :: p != []) && Steady(cfg, unread + Concat(pieces), stack)
    ensures Stream(cfg, unread, stack, pieces) == Judge(Run(cfg, unread + Concat(pieces), stack))
    decreases |pieces|
  {
    hide Steady, Run;
    if pieces == [] {
      assert unread + Concat(pieces) == unread;
    } else {
      var a, later := unread + pieces[0], Concat(pieces[1..]);
      var b := a + later;
      assert b == unread + Concat(pieces) && b[..|a|] == a && b[|a|..] == later;
      RunCut(cfg, b, |a|, stack);
      match Run(cfg, a, stack) {
        case Insufficient(r, st) =>
          ReachesLess(cfg, b, stack, r + later, st);
          LeftInsufficient(cfg, a, stack);
          assert forall p | p in pieces[1..] :: p in pieces;
          StreamFollows(cfg, r, st, pieces[1..]);
        case Object(o, r) =>
          if |pieces| > 1 {
            assert pieces[1] in pieces && pieces[1..][0] == pieces[1];
          } else {
            assert later == [] && r + later == r;
          }
        case Invalid =>
        case Unclear =>
      }
    }
  }

  lemma {:induction false} LeftInsufficient(cfg: Config, rest: seq<byte>, stack: seq<State>)
    ensures var r := Run(cfg, rest, stack); r.Insufficient? ==> Run(cfg, r.rest, r.stack) == r
    decreases |rest|
  {
    StopShrinks(cfg, rest, stack);
    hide TurnOf;
    var t := TurnOf(cfg, rest, stack);
    if t.On? { LeftInsufficient(cfg, t.rest, t.stack); }
  }

  /**
    * A stream that is cut anywhere gives what `decode` gives on the whole, if no string takes bits from behind
    * its end.
    */
  lemma StreamIsWhole(cfg: Config, pieces: seq<seq<byte>>)
    requires (forall p | p in pieces :: p != []) && Steady(cfg, Concat(pieces), [])
    ensures Stream(cfg, [], [], pieces) == Judge(Run(cfg, Concat(pieces), []))
  {
    hide Steady, Stream;
    assert [] + Concat(pieces) == Concat(pieces);
    NothingLeft(cfg, []);
    StreamFollows(cfg, [], [], pieces);
  }

  /** The text `c3` takes from one byte behind it, and from none. */
  lemma DifferentTexts(cfg: Config)
    requires cfg.maxStr > 0
    ensures TokenAt(cfg, false, 0xa1, [0xc3, 0x01]) == Atom(JString([0xc1]), 1)
    ensures TokenAt(cfg, false, 0xa1, [0xc3]) == Atom(JString([0xc0]), 1)
  {
    var a: seq<byte>, b: seq<byte> := [0xc3, 0x01], [0xc3];
    assert UnitsAt(a, 0) == [0xc1] && UnitsAt(b, 0) == [0xc0];
    assert Decode(a, 0, 1) == [0xc1] + [] == [0xc1];
    assert Decode(b, 0, 1) == [0xc0] + [] == [0xc0];
    hide Decode;
    assert TextAt(cfg, false, a, 1, 0) == [0xc1] && TextAt(cfg, false, b, 1, 0) == [0xc0];
  }

  /** The array of one string and the number 1, from where the string is unread. */
  lemma PairOf(cfg: Config, rest: seq<byte>, s: text)
    requires rest != [] && rest[0] == 0xa1 && TokenAt(cfg, false, 0xa1, rest[1..]) == Atom(JString(s), 1)
    ensures TurnOf(cfg, rest, [ArrayState(2, [])]) == On(rest[2..], [ArrayState(2, [JString(s)])])
  {
    assert [ArrayState(2, [])][..0] == [];
    assert [] + [JString(s)] == [JString(s)] && [] + [ArrayState(2, [JString(s)])] == [ArrayState(2, [JString(s)])];
  }

  lemma PairEnds(cfg: Config, s: text)
    ensures Run(cfg, [0x01], [ArrayState(2, [JString(s)])]) == Object(JArray([JString(s), JNumber(1)]), [])
  {
    var stack := [ArrayState(2, [JString(s)])];
    assert stack[..0] == [] && [JString(s)] + [JNumber(1)] == [JString(s), JNumber(1)];
    assert TokenAt(cfg, false, 0x01, []) == Atom(JNumber(1), 0);
    assert Feed(cfg, [], JArray([JString(s), JNumber(1)])) == Finished(JArray([JString(s), JNumber(1)]));
    assert TurnOf(cfg, [0x01], stack) == Stop(Object(JArray([JString(s), JNumber(1)]), []));
  }

  /** Otherwise it may not: the text of a string can change with the place of the cut. */
  lemma StreamDiffers(cfg: Config)
    requires cfg.maxStr > 0 && cfg.maxArray > 1
    ensures Judge(Run(cfg, [0x92, 0xa1, 0xc3, 0x01], [])) == Some(Value(JArray([JString([0xc1]), JNumber(1)])))
    ensures Stream(cfg, [], [], [[0x92, 0xa1, 0xc3], [0x01]]) == Some(Value(JArray([JString([0xc0]), JNumber(1)])))
  {
    DifferentTexts(cfg);
    var st: seq<State> := [ArrayState(2, [])];
    assert [] + st == st;
    var x: seq<byte>, y: seq<byte> := [0xa1, 0xc3, 0x01], [0xa1, 0xc3];
    assert TurnOf(cfg, [0x92] + x, []) == On(x, st) && TurnOf(cfg, [0x92] + y, []) == On(y, st) by {
      assert ([0x92] + x)[1..] == x && ([0x92] + y)[1..] == y;
    }
    hide TurnOf, TokenAt;
    PairOf(cfg, x, [0xc1]);
    PairOf(cfg, y, [0xc0]);
    PairEnds(cfg, [0xc1]);
    PairEnds(cfg, [0xc0]);
    var one: seq<State> := [ArrayState(2, [JString([0xc0])])];
    NothingLeft(cfg, one);
    assert Run(cfg, [0x92] + x, []) == Object(JArray([JString([0xc1]), JNumber(1)]), []);
    assert Run(cfg, [0x92] + y, []) == Insufficient([], one);
    hide Run;
    var pieces: seq<seq<byte>> := [[0x92, 0xa1, 0xc3], [0x01]];
    assert pieces[1..] == [[0x01]] && [] + pieces[0] == [0x92] + y && [] + [0x01] == [0x01];
    assert Stream(cfg, [], one, [[0x01]]) == Some(Value(JArray([JString([0xc0]), JNumber(1)])));
  }
}
