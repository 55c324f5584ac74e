/** The JavaScript decoder and its key cache as the objects they are. */
module JsDecoder {
  import opened Bytes
  import opened Msgpack
  import A = MpackAgree
  import opened JsUtf8
  import opened JsUtf8Theorems
  import opened JsDecode
  import opened JsCut
  import opened JsKeyCache
  import opened JsResult
  import opened JsDecodeTheorems

  /** A result of `doDecodeSync`: an object, a `RangeError` for want of data, or a `DecodeError`. */
  datatype Step = Done(o: Js) | Starved | Failed

  /** `Decoder` */
  class Decoder {
    const cfg: Config
    const cache: KeyCache?
    var bytes: seq<byte>
    var pos: nat
    var head: Option<byte>
    var stack: seq<State>

    ghost predicate Valid()
      reads this, cache
    {
      && pos <= |bytes|
      && if cache == null then cfg.keyMax == 0 else cache.Valid() && cache.maxKeyLength == cfg.keyMax
    }

    /** The input that is not decoded yet; a head byte is taken from the buffer before the rest of its token. */
    ghost function Unread(): seq<byte>
      requires Valid()
      reads this, cache
    {
      (if head.Some? then [head.value] else []) + bytes[pos..]
    }

    constructor (cfg: Config, cache: KeyCache?)
      requires if cache == null then cfg.keyMax == 0 else cache.Valid() && cache.maxKeyLength == cfg.keyMax
      ensures Valid() && Unread() == [] && stack == [] && this.cfg == cfg && this.cache == cache
    {
      this.cfg, this.cache := cfg, cache;
      bytes, pos, head, stack := [], 0, None, [];
    }

    /** `appendBuffer` */
    method AppendBuffer(buffer: seq<byte>)
      requires Valid()
      modifies this`bytes, this`pos
      ensures Valid() && Unread() == old(Unread()) + buffer
    {
      if head.None? && |bytes| - pos < 1 {
        bytes := buffer;
      } else {
        bytes := bytes[pos..] + buffer;
      }
      pos := 0;
    }

    /** The text of a key of `n` bytes behind `header`, through the cache. */
    ghost function CachedText(n: nat, header: nat): text
      requires Valid() && cache != null && 0 < n <= cache.maxKeyLength && pos + header + n <= |bytes|
      reads this, cache
    {
      KeyText(cache.caches[n - 1], bytes, pos + header, n)
    }

    /** `decodeUtf8String` */
    method DecodeString(n: nat, header: nat) returns (t: Token)
      requires Valid()
      modifies cache
      ensures Valid() && t.In(bytes[pos..])
      ensures
        var u := StringToken(cfg, IsKey(stack), bytes[pos..], n, header);
        if u.Ragged? then cache != null && t == Atom(JString(old(CachedText(n, header))), header + n) else t == u
    {
      hide Decode, Whole;
      if n > cfg.maxStr { return Wrong; }
      if |bytes| < pos + header + n { return More; }
      var offset := pos + header;
      StringBehind(cfg, IsKey(stack), bytes, pos, n, header);
      var str;
      if IsKey(stack) && cache != null && 0 < n <= cache.maxKeyLength {
        str := cache.DecodeKey(bytes, offset, n);
      } else if n > THRESHOLD {
        str := cfg.textDecoder(bytes[offset..offset + n]);
      } else {
        str := DecodeJs(bytes, offset, n);
      }
      return Atom(JString(str), header + n);
    }

    /** The branch of the head byte. */
    method ReadToken() returns (t: Token)
      requires Valid() && head.Some?
      modifies cache
      ensures Valid() && t.In(bytes[pos..]) && !t.Ragged?
      ensures var u := TokenAt(cfg, IsKey(stack), head.value, bytes[pos..]); u.Ragged? || t == u
    {
      var h, rest := head.value, bytes[pos..];
      hide StringToken, SizedToken, NumberToken, ExtensionToken, BinaryToken, IsKey;
      if 0xa0 <= h < 0xc0 {
        t := DecodeString(h - 0xa0, 0);
      } else if 0xd9 <= h <= 0xdb {
        var w := StringWidth(h);
        SizedString(cfg, IsKey(stack), rest, w);
        if |rest| < w { return More; }
        t := DecodeString(Load(rest[..w]), w);
      } else {
        NoString(cfg, IsKey(stack), h, rest);
        t := TokenAt(cfg, IsKey(stack), h, rest);
      }
    }

    /** The loop that puts a finished object into the containers on the stack. */
    method Place(obj: Js) returns (f: Fed)
      requires Valid()
      modifies this`stack
      ensures Valid() && f == Feed(cfg, old(stack), obj)
      ensures f.Finished? ==> stack == []
      ensures f.Going? ==> stack == f.stack
    {
      var o := obj;
      while |stack| > 0
        invariant Valid()
        invariant Feed(cfg, stack, o) == Feed(cfg, old(stack), obj)
        decreases |stack|
      {
        var top, below := stack[|stack| - 1], stack[..|stack| - 1];
        match top
        case ArrayState(size, items) =>
          if |items| + 1 == size {
            stack, o := below, JArray(items + [o]);
          } else {
            stack := below + [ArrayState(size, items + [o])];
            return Going(stack);
          }
        case MapState(size, None, readCount, props) =>
          if !KeyOk(o) { return Refused; }
          stack := below + [MapState(size, Some(NameOf(cfg, o)), readCount, props)];
          return Going(stack);
        case MapState(size, Some(k), readCount, props) =>
          if readCount + 1 == size {
            stack, o := below, JObject(Assign(props, k, o));
          } else {
            stack := below + [MapState(size, None, readCount + 1, Assign(props, k, o))];
            return Going(stack);
          }
      }
      return Finished(o);
    }

    /** `readHeadByte` */
    method ReadHead() returns (ok: bool)
      requires Valid()
      modifies this`head, this`pos
      ensures Valid() && Unread() == old(Unread())
      ensures ok <==> Unread() != []
      ensures ok ==> head.Some? && Unread()[0] == head.value && Unread()[1..] == bytes[pos..]
    {
      if head.None? {
        if pos >= |bytes| { return false; }
        assert bytes[pos..] == [bytes[pos]] + bytes[pos + 1..];
        head, pos := Some(bytes[pos]), pos + 1;
      }
      return true;
    }

    /** `complete`, after a token of `used` bytes behind its head byte. */
    method Complete(used: nat)
      requires Valid() && head.Some? && used <= |bytes| - pos
      modifies this`head, this`pos
      ensures Valid() && head.None? && Unread() == old(Unread())[1 + used..]
    {
      assert Unread()[1 + used..] == bytes[pos + used..];
      head, pos := None, pos + used;
    }

    /** One round of the loop; `None` is `continue`. */
    method Turn() returns (r: Option<Step>)
      requires Valid()
      modifies this, cache
      ensures Valid() && (r.None? ==> |Unread()| < |old(Unread())|)
      ensures
        var u := old(TurnOf(cfg, Unread(), stack));
        u == Stop(Unclear) || match r case None => u == On(Unread(), stack) case Some(s) => u.Stop? && Ended(u.out, s)
    {
      hide TokenAt, Feed, IsKey;
      var ok := ReadHead();
      if !ok { return Some(Starved); }
      var t := ReadToken();
      if t.More? { return Some(Starved); }
      if t.Wrong? { return Some(Failed); }
      Complete(t.used);
      if t.Open? {
        stack := stack + [t.st];
        return None;
      }
      var f := Place(t.o);
      match f
      case Refused => return Some(Failed);
      case Finished(o) => return Some(Done(o));
      case Going(_) => return None;
    }

    /** The decoder stands where `run` ends. */
    ghost predicate Ended(run: Outcome, r: Step)
      requires Valid()
      reads this, cache
    {
      match r
      case Done(o) => run == Object(o, Unread()) && head.None? && stack == []
      case Starved => run == Insufficient(Unread(), stack)
      case Failed => run == Invalid
    }

    /** `doDecodeSync`: on the unread bytes, to the object, to an error, or to a token that is cut off. */
    method DoDecodeSync() returns (r: Step)
      requires Valid()
      modifies this, cache
      ensures Valid()
      ensures var run := old(Run(cfg, Unread(), stack)); run.Unclear? || Ended(run, r)
    {
      hide TurnOf;
      ghost var run := Run(cfg, Unread(), stack);
      while true
        invariant Valid()
        invariant run.Unclear? || Run(cfg, Unread(), stack) == run
        decreases |Unread()|
      {
        var t := Turn();
        if t.Some? { return t.value; }
      }
    }

    /** `decode` */
    method DecodeAll(data: seq<byte>) returns (r: Decoded)
      requires Valid()
      modifies this, cache
      ensures Valid()
      ensures var j := Judge(Run(cfg, data, [])); j.None? || r == j.value
    {
      hide Run;
      stack, head := [], None;
      bytes, pos := data, 0;
      assert Unread() == data;
      var s := DoDecodeSync();
      match s
      case Failed => return Malformed;
      case Starved => return TooShort;
      case Done(o) => return if |bytes| - pos >= 1 then ExtraBytes else Value(o);
    }

    /** `decodeAsync` on a stream of buffers. */
    method DecodeAsync(pieces: seq<seq<byte>>) returns (r: Decoded)
      requires Valid()
      modifies this, cache
      ensures Valid()
      ensures var j := old(Stream(cfg, Unread(), stack, pieces)); j.None? || r == j.value
    {
      hide Run;
      ghost var j := Stream(cfg, Unread(), stack, pieces);
      var decoded: Option<Js> := None;
      assert pieces[0..] == pieces;
      for i := 0 to |pieces|
        invariant Valid()
        invariant j.Some? && decoded.None? ==> Stream(cfg, Unread(), stack, pieces[i..]) == j
        invariant j.Some? && decoded.Some? ==>
          head.None? && j.value == if Unread() == [] && i == |pieces| then Value(decoded.value) else ExtraBytes
      {
        assert pieces[i..][0] == pieces[i] && pieces[i..][1..] == pieces[i + 1..];
        if decoded.Some? { return ExtraBytes; }
        AppendBuffer(pieces[i]);
        var s := DoDecodeSync();
        match s
        case Failed => return Malformed;
        case Starved =>
        case Done(o) => decoded := Some(o);
      }
      match decoded
      case Some(o) => return if |bytes| - pos >= 1 then ExtraBytes else Value(o);
      case None => return TooShort;
    }
  }

  /**
    * A stream decodes as its whole input does and as the recursive decoder does, however it is cut and whatever the two
    * key caches have seen before, if no string takes bits from behind its end; in any case the answers are of the same
    * kind if the input is firm.
    */
  method Resumable(cfg: Config, one: KeyCache?, two: KeyCache?, pieces: seq<seq<byte>>)
      returns (whole: Decoded, cut: Decoded)
    requires one != null ==> one.Valid() && one.maxKeyLength == cfg.keyMax
    requires two != null ==> two.Valid() && two.maxKeyLength == cfg.keyMax
    requires one == null || two == null ==> cfg.keyMax == 0
    requires forall p | p in pieces :: p != []
    modifies one, two
    ensures
      var j := Judge(Run(cfg, Concat(pieces), []));
      && (Steady(cfg, Concat(pieces), []) && j.Some? ==> whole == cut == j.value)
      && (Firm(cfg, Concat(pieces), []) && j.Some? ==> whole == j.value && SameKind(Some(cut), Some(whole)))
    ensures
      var w := A.Walk(Concat(pieces), 0);
      w.Got? && w.pt == |Concat(pieces)| && Fits(cfg, false, w.v) ==> whole == cut == Value(ToJs(cfg, false, w.v))
  {
    hide Run, Stream, Steady, Firm, A.Walk, Fits, ToJs;
    ghost var data := Concat(pieces);
    ghost var w := A.Walk(data, 0);
    if w.Got? && w.pt == |data| && Fits(cfg, false, w.v) { ObjectDecodes(cfg, data, w.v); }
    if Steady(cfg, data, []) { StreamIsWhole(cfg, pieces); }
    KindExactly(cfg, data);
    assert Cuts(pieces, data);
    var a := new Decoder(cfg, one);
    whole := a.DecodeAll(Concat(pieces));
    var b := new Decoder(cfg, two);
    cut := b.DecodeAsync(pieces);
  }

  /** Decoding inside the buffer and decoding the unread bytes are the same. */
  lemma StringBehind(cfg: Config, key: bool, bytes: seq<byte>, pos: nat, n: nat, header: nat)
    requires pos + header + n <= |bytes|
    ensures
      var rest, offset := bytes[pos..], pos + header;
      var s := bytes[offset..offset + n];
      && (Whole(rest, header, header + n) <==> Whole(s, 0, n))
      && (Whole(s, 0, n) ==> Decode(rest, header, header + n) == Decode(s, 0, n))
      && Decode(rest, header, header + n) == Decode(bytes, offset, offset + n)
      && rest[header..header + n] == s
  {
    hide Decode, Whole;
    var rest, offset := bytes[pos..], pos + header;
    var s := bytes[offset..offset + n];
    assert rest[header..header + n] == s;
    WholeSlice(rest, header, header + n, s, 0);
    if Whole(s, 0, n) { WholeIsLocal(rest, header, header + n, s, 0); }
    DecodeBehind(bytes, pos, header, header + n);
  }

  lemma SizedString(cfg: Config, key: bool, rest: seq<byte>, w: nat)
    ensures SizedToken(cfg, key, rest, w, String)
         == if |rest| < w then More else StringToken(cfg, key, rest, Load(rest[..w]), w)
  {
  }

  lemma NoString(cfg: Config, key: bool, h: byte, rest: seq<byte>)
    requires !(0xa0 <= h < 0xc0) && !(0xd9 <= h <= 0xdb)
    ensures !TokenAt(cfg, key, h, rest).Ragged?
  {
    hide StringToken;
  }
}
