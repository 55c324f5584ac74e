/**
  * The bulk paths of the parser: loops that take many header or body bytes at once.  Each is specified by a fold of
  * the one-byte arm, and the fold is proved to be what the one-byte machine does with the same bytes.
  */
module HttpBulk {
  import opened Bytes
  import opened HttpTypes
  import opened HttpArms
  import opened HttpMachine

  function Min(a: nat, b: nat): nat { if a < b then a else b }

  predicate AllTokens(bytes: seq<byte>) { forall i | 0 <= i < |bytes| :: Token(bytes[i]) != 0 }

  predicate NoLineEnd(bytes: seq<byte>) { forall i | 0 <= i < |bytes| :: bytes[i] != CR && bytes[i] != LF }

  /** Run one byte more. */
  lemma RunSnoc(cfg: Config, m: Machine, bytes: seq<byte>)
    requires MachineInv(cfg, m) && bytes != []
    ensures var r := Run(cfg, m, bytes[..|bytes| - 1]);
            Run(cfg, m, bytes) == if Stopped(r) then r else Step(cfg, r, bytes[|bytes| - 1])
  {
    hide MachineInv, Step;
    var last := bytes[|bytes| - 1];
    assert bytes == bytes[..|bytes| - 1] + [last];
    RunConcat(cfg, m, bytes[..|bytes| - 1], [last]);
    var r := Run(cfg, m, bytes[..|bytes| - 1]);
    if !Stopped(r) {
      assert Run(cfg, r, [last]) == Run(cfg, Step(cfg, r, last), []);
    }
  }

  // ---- header fields ----

  function FoldField(f: Fields, bytes: seq<byte>): (g: Fields)
    requires FieldHs(f.hs)
    ensures FieldHs(g.hs) && g == f.(hs := g.hs, index := g.index)
    decreases |bytes|
  {
    hide MatchField;
    if bytes == [] then f else MatchField(FoldField(f, bytes[..|bytes| - 1]), bytes[|bytes| - 1])
  }

  lemma FoldFieldSnoc(f: Fields, bytes: seq<byte>, ch: byte)
    requires FieldHs(f.hs)
    ensures FoldField(f, bytes + [ch]) == MatchField(FoldField(f, bytes), ch)
  {
    assert (bytes + [ch])[..|bytes|] == bytes;
  }

  lemma FoldFieldEmpty(f: Fields)
    requires FieldHs(f.hs)
    ensures FoldField(f, []) == f
  {
  }

  /** `MatchField` does not look at the byte counter. */
  lemma MatchFieldCounter(f: Fields, n: nat, ch: byte)
    requires FieldHs(f.hs)
    ensures MatchField(f.(nread := n), ch) == MatchField(f, ch).(nread := n)
  {
    hide FieldNext;
  }

  lemma StepField(cfg: Config, m: Machine, ch: byte)
    requires MachineInv(cfg, m) && m.f.errno.OK? && m.f.state.HeaderField? && Token(ch) != 0
    ensures if m.f.nread < cfg.maxHeader
            then Step(cfg, m, ch)
              == Machine(MatchField(m.f, ch).(nread := m.f.nread + 1), Push(m.log, Data(KField, [ch])), false)
            else !Step(cfg, m, ch).f.errno.OK?
  {
    hide MatchField, Token, Inv;
    assert FieldHs(m.f.hs) by { InvField(m.f); }
    MatchFieldCounter(m.f, m.f.nread + 1, ch);
    CountedKeeps(m.f);
  }

  lemma InvField(f: Fields)
    requires Inv(f) && f.state.HeaderField?
    ensures FieldHs(f.hs)
  {
  }

  /** What the machine does with the bytes of a field name. */
  lemma {:induction false} RunField(cfg: Config, m: Machine, bytes: seq<byte>)
    requires MachineInv(cfg, m) && !Stopped(m) && m.f.state.HeaderField? && FieldHs(m.f.hs) && AllTokens(bytes)
    ensures if m.f.nread + |bytes| <= cfg.maxHeader
            then Run(cfg, m, bytes)
                 == Machine(FoldField(m.f, bytes).(nread := m.f.nread + |bytes|),
                            Push(m.log, Data(KField, bytes)), false)
            else !Run(cfg, m, bytes).f.errno.OK?
    decreases |bytes|
  {
    hide Inv, MatchField, Step, Token;
    if bytes == [] {
      PushNothing(m.log, KField);
    } else {
      var init, last := bytes[..|bytes| - 1], bytes[|bytes| - 1];
      RunField(cfg, m, init);
      RunSnoc(cfg, m, bytes);
      if m.f.nread + |init| <= cfg.maxHeader {
        var r := Run(cfg, m, init);
        StepField(cfg, r, last);
        MatchFieldCounter(FoldField(m.f, init), m.f.nread + |init|, last);
        PushSplit(m.log, KField, init, [last]);
        assert init + [last] == bytes;
      }
    }
  }

  /** A name that matches no known header is no longer compared. */
  lemma {:induction false} FoldGeneral(f: Fields, bytes: seq<byte>, more: seq<byte>)
    requires FieldHs(f.hs) && FoldField(f, bytes).hs.HGeneral?
    ensures FoldField(f, bytes + more) == FoldField(f, bytes)
    decreases |more|
  {
    if more == [] {
      assert bytes + more == bytes;
    } else {
      assert bytes + more == bytes + more[..|more| - 1] + [more[|more| - 1]];
      FoldGeneral(f, bytes, more[..|more| - 1]);
      FoldFieldSnoc(f, bytes + more[..|more| - 1], more[|more| - 1]);
    }
  }

  predicate TokensIn(data: seq<byte>, lo: nat, hi: nat)
    requires hi <= |data|
  {
    forall i | lo <= i < hi :: Token(data[i]) != 0
  }

  /**
    * The inner loop of `s_header_field` for names that match no known header: advance while the next byte is a
    * token.
    */
  method SkipTokens(data: seq<byte>, from: nat, pe: nat) returns (p: nat)
    requires from < pe <= |data|
    ensures from <= p < pe && TokensIn(data, from + 1, p + 1)
    ensures p + 1 < pe ==> Token(data[p + 1]) == 0
  {
    hide Token;
    p := from;
    while p + 1 < pe && Token(data[p + 1]) != 0
      invariant from <= p < pe && TokensIn(data, from + 1, p + 1)
    {
      p := p + 1;
    }
  }

  /** The loop of `s_header_field`. */
  method ScanField(cfg: Config, f0: Fields, data: seq<byte>, start: nat) returns (f: Fields, p: nat)
    requires FieldHs(f0.hs) && start <= |data| && 0 < cfg.maxHeader
    ensures start <= p <= |data| && TokensIn(data, start, p) && (p < |data| ==> Token(data[p]) == 0)
    ensures f == FoldField(f0, data[start..p])
  {
    hide Token, MatchField, FoldField, FieldHs;
    f, p := f0, start;
    assert f == FoldField(f0, data[start..p]) by { assert data[start..p] == []; FoldFieldEmpty(f0); }
    while p != |data| && Token(data[p]) != 0
      invariant start <= p <= |data| && TokensIn(data, start, p)
      invariant f == FoldField(f0, data[start..p])
    {
      ghost var from := p;
      if f.hs.HGeneral? {
        p := SkipTokens(data, p, p + Min(|data| - p, cfg.maxHeader));
        FoldGeneral(f0, data[start..from], data[from..p + 1]);
        assert data[start..p + 1] == data[start..from] + data[from..p + 1];
      } else {
        FoldFieldSnoc(f0, data[start..p], data[p]);
        assert data[start..p + 1] == data[start..p] + [data[p]];
        f := MatchField(f, data[p]);
      }
      p := p + 1;
    }
  }

  // ---- header values ----

  /** One byte of a header value, with the check that it may stand in a header. */
  function ValueByte(f: Fields, ch: byte): (g: Fields)
    requires ValueHs(f.hs) && f.v.contentLength < TWO_64
    ensures ValueHs(g.hs) && g.v.contentLength < TWO_64 && g.state == f.state && g.nread == f.nread
        && g.lenient == f.lenient
  {
    hide MatchValue, IsHeaderChar;
    if !f.lenient && !IsHeaderChar(ch) then f.(errno := InvalidHeaderToken) else MatchValue(f, ch)
  }

  function FoldValue(f: Fields, bytes: seq<byte>): (g: Fields)
    requires ValueHs(f.hs) && f.v.contentLength < TWO_64
    ensures ValueHs(g.hs) && g.v.contentLength < TWO_64 && g.state == f.state && g.nread == f.nread
        && g.lenient == f.lenient
    decreases |bytes|
  {
    hide ValueByte, ValueHs;
    if bytes == [] then f
    else
      var g := FoldValue(f, bytes[..|bytes| - 1]);
      if g.errno.OK? then ValueByte(g, bytes[|bytes| - 1]) else g
  }

  lemma FoldValueSnoc(f: Fields, bytes: seq<byte>, ch: byte)
    requires ValueHs(f.hs) && f.v.contentLength < TWO_64
    ensures var g := FoldValue(f, bytes);
            FoldValue(f, bytes + [ch]) == if g.errno.OK? then ValueByte(g, ch) else g
  {
    hide ValueByte, ValueHs;
    assert (bytes + [ch])[..|bytes|] == bytes;
  }

  lemma ValueByteCounter(f: Fields, n: nat, ch: byte)
    requires ValueHs(f.hs) && f.v.contentLength < TWO_64
    ensures ValueByte(f.(nread := n), ch) == ValueByte(f, ch).(nread := n)
  {
    hide ValueNext, ValueIndex, ValueHs, IsHeaderChar;
  }

  lemma StepValue(cfg: Config, m: Machine, ch: byte)
    requires MachineInv(cfg, m) && m.f.errno.OK? && m.f.state.HeaderValue? && ch != CR && ch != LF
    requires ValueHs(m.f.hs) && m.f.v.contentLength < TWO_64
    ensures var r, g := Step(cfg, m, ch), ValueByte(m.f, ch);
            if m.f.nread < cfg.maxHeader && g.errno.OK?
            then r == Machine(g.(nread := m.f.nread + 1), Push(m.log, Data(KValue, [ch])), false)
            else !r.f.errno.OK?
  {
    hide MatchValue, IsHeaderChar, Inv, ValueHs;
    CountedKeeps(m.f);
    ValueByteCounter(m.f, m.f.nread + 1, ch);
  }

  /** What the machine does with the bytes of a header value. */
  lemma {:induction false} RunValue(cfg: Config, m: Machine, bytes: seq<byte>)
    requires MachineInv(cfg, m) && !Stopped(m) && m.f.state.HeaderValue? && NoLineEnd(bytes)
    requires ValueHs(m.f.hs) && m.f.v.contentLength < TWO_64
    ensures var r, g := Run(cfg, m, bytes), FoldValue(m.f, bytes);
            if m.f.nread + |bytes| <= cfg.maxHeader && g.errno.OK?
            then r == Machine(g.(nread := m.f.nread + |bytes|), Push(m.log, Data(KValue, bytes)), false)
            else !r.f.errno.OK?
    decreases |bytes|
  {
    hide Inv, ValueByte, Step, ValueHs;
    if bytes == [] {
      PushNothing(m.log, KValue);
    } else {
      var init, last := bytes[..|bytes| - 1], bytes[|bytes| - 1];
      RunValue(cfg, m, init);
      RunSnoc(cfg, m, bytes);
      var g := FoldValue(m.f, init);
      if m.f.nread + |init| <= cfg.maxHeader && g.errno.OK? {
        var r := Run(cfg, m, init);
        StepValue(cfg, r, last);
        ValueByteCounter(g, m.f.nread + |init|, last);
        PushSplit(m.log, KValue, init, [last]);
        assert init + [last] == bytes;
      }
    }
  }

  predicate NoLineEndIn(data: seq<byte>, lo: nat, hi: nat)
    requires hi <= |data|
  {
    forall i | lo <= i < hi :: data[i] != CR && data[i] != LF
  }

  predicate HeaderCharsIn(lenient: bool, data: seq<byte>, lo: nat, hi: nat)
    requires hi <= |data|
  {
    lenient || forall i | lo <= i < hi :: IsHeaderChar(data[i])
  }

  /** A value that is not compared with anything passes through. */
  lemma {:induction false} FoldValueGeneral(f: Fields, bytes: seq<byte>, more: seq<byte>)
    requires ValueHs(f.hs) && f.v.contentLength < TWO_64
    requires var g := FoldValue(f, bytes); g.errno.OK? && g.hs.HGeneral?
    requires HeaderCharsIn(f.lenient, more, 0, |more|)
    ensures FoldValue(f, bytes + more) == FoldValue(f, bytes)
    decreases |more|
  {
    hide ValueHs, IsHeaderChar, MatchValue, FoldValue;
    if more == [] {
      assert bytes + more == bytes;
    } else {
      var init, last := more[..|more| - 1], more[|more| - 1];
      assert bytes + more == bytes + init + [last];
      FoldValueGeneral(f, bytes, init);
      FoldValueSnoc(f, bytes + init, last);
      MatchValueGeneral(FoldValue(f, bytes), last);
    }
  }

  /**
    * The inner loop of `s_header_value` for values that are not compared.  When the rest of the buffer is longer than
    * the header limit it stops on a byte it has not looked at; the caller then exceeds the limit.
    */
  method SkipValue(cfg: Config, lenient: bool, data: seq<byte>, from: nat) returns (p: nat, bad: bool)
    requires from < |data| && data[from] != CR && data[from] != LF && 0 < cfg.maxHeader
    ensures from <= p < |data|
    ensures bad ==> NoLineEndIn(data, from, p + 1) && !lenient && !IsHeaderChar(data[p]) && p < from + cfg.maxHeader
    ensures var q := Min(p + 1, from + cfg.maxHeader);
            !bad ==>
              && q <= |data| && NoLineEndIn(data, from, q) && HeaderCharsIn(lenient, data, from, q)
              && p <= from + cfg.maxHeader
    ensures bad ==> HeaderCharsIn(lenient, data, from, p)
  {
    hide IsHeaderChar;
    var pe := from + Min(|data| - from, cfg.maxHeader);
    p, bad := from, false;
    while p != pe
      invariant from <= p <= pe && NoLineEndIn(data, from, p) && HeaderCharsIn(lenient, data, from, p)
      decreases pe - p
    {
      if data[p] == CR || data[p] == LF {
        p := p - 1;
        break;
      }
      if !lenient && !IsHeaderChar(data[p]) {
        bad := true;
        return;
      }
      p := p + 1;
    }
    if p == |data| {
      p := p - 1;
    }
  }

  /** How far the loop of `s_header_value` got, in terms of the one-byte fold. */
  ghost predicate Scanned(cfg: Config, f0: Fields, data: seq<byte>, start: nat, f: Fields, p: nat)
    requires ValueHs(f0.hs) && f0.v.contentLength < TWO_64 && start <= p <= |data|
  {
    if p - start <= cfg.maxHeader then NoLineEndIn(data, start, p) && f == FoldValue(f0, data[start..p])
    else start + cfg.maxHeader < |data| && NoLineEndIn(data, start, start + cfg.maxHeader)
  }

  lemma ScannedEmpty(cfg: Config, f0: Fields, data: seq<byte>, start: nat)
    requires ValueHs(f0.hs) && f0.v.contentLength < TWO_64 && start <= |data|
    ensures Scanned(cfg, f0, data, start, f0, start)
  {
    assert data[start..start] == [];
  }

  lemma ScannedByte(cfg: Config, f0: Fields, data: seq<byte>, start: nat, f: Fields, p: nat)
    requires ValueHs(f0.hs) && f0.v.contentLength < TWO_64 && start <= p < |data|
    requires ValueHs(f.hs) && f.v.contentLength < TWO_64 && f.errno.OK?
    requires Scanned(cfg, f0, data, start, f, p) && data[p] != CR && data[p] != LF
    ensures Scanned(cfg, f0, data, start, ValueByte(f, data[p]), p + 1)
  {
    hide ValueHs, ValueByte, FoldValue;
    if p - start <= cfg.maxHeader {
      FoldValueSnoc(f0, data[start..p], data[p]);
      assert data[start..p + 1] == data[start..p] + [data[p]];
    }
  }

  lemma ScannedSkip(cfg: Config, f0: Fields, data: seq<byte>, start: nat, f: Fields, from: nat, p: nat)
    requires ValueHs(f0.hs) && f0.v.contentLength < TWO_64 && start <= from <= p < |data|
    requires f.errno.OK? && f.hs.HGeneral? && f.lenient == f0.lenient
    requires Scanned(cfg, f0, data, start, f, from)
    requires p <= from + cfg.maxHeader
    requires var q := Min(p + 1, from + cfg.maxHeader);
             NoLineEndIn(data, from, q) && HeaderCharsIn(f0.lenient, data, from, q)
    ensures Scanned(cfg, f0, data, start, f, p + 1)
  {
    hide ValueHs, FoldValue, IsHeaderChar;
    if p + 1 - start <= cfg.maxHeader {
      FoldValueGeneral(f0, data[start..from], data[from..p + 1]);
      assert data[start..p + 1] == data[start..from] + data[from..p + 1];
    }
  }

  /** The byte at `p` ends the value with an error, or the bytes up to it are already too many. */
  ghost predicate Rejected(cfg: Config, f0: Fields, data: seq<byte>, start: nat, p: nat)
    requires ValueHs(f0.hs) && f0.v.contentLength < TWO_64 && start <= p < |data|
  {
    if p - start < cfg.maxHeader then NoLineEndIn(data, start, p + 1) && !FoldValue(f0, data[start..p + 1]).errno.OK?
    else start + cfg.maxHeader < |data| && NoLineEndIn(data, start, start + cfg.maxHeader)
  }

  lemma RejectedByte(cfg: Config, f0: Fields, data: seq<byte>, start: nat, f: Fields, p: nat)
    requires ValueHs(f0.hs) && f0.v.contentLength < TWO_64 && start <= p < |data|
    requires ValueHs(f.hs) && f.v.contentLength < TWO_64 && f.errno.OK?
    requires Scanned(cfg, f0, data, start, f, p) && data[p] != CR && data[p] != LF && !ValueByte(f, data[p]).errno.OK?
    ensures Rejected(cfg, f0, data, start, p)
  {
    hide ValueHs, ValueByte, FoldValue;
    ScannedByte(cfg, f0, data, start, f, p);
  }

  lemma RejectedSkip(cfg: Config, f0: Fields, data: seq<byte>, start: nat, f: Fields, from: nat, p: nat)
    requires ValueHs(f0.hs) && f0.v.contentLength < TWO_64 && start <= from <= p < |data|
    requires ValueHs(f.hs) && f.v.contentLength < TWO_64 && f.errno.OK? && f.hs.HGeneral? && f.lenient == f0.lenient
    requires Scanned(cfg, f0, data, start, f, from)
    requires NoLineEndIn(data, from, p + 1) && HeaderCharsIn(f0.lenient, data, from, p) && p < from + cfg.maxHeader
    requires !f0.lenient && !IsHeaderChar(data[p])
    ensures Rejected(cfg, f0, data, start, p)
  {
    hide ValueHs, FoldValue, IsHeaderChar, MatchValue;
    if p > from { ScannedSkip(cfg, f0, data, start, f, from, p - 1); }
    RejectedByte(cfg, f0, data, start, f, p);
  }

  /** The loop of `s_header_value`: it stops at a line end, at the end of the buffer or at an error. */
  method ScanValue(cfg: Config, f0: Fields, data: seq<byte>, start: nat) returns (f: Fields, p: nat)
    requires ValueHs(f0.hs) && f0.v.contentLength < TWO_64 && f0.errno.OK? && start <= |data| && 0 < cfg.maxHeader
    ensures start <= p <= |data| && f.state == f0.state
    ensures f.errno.OK? ==> Scanned(cfg, f0, data, start, f, p) && (p < |data| ==> data[p] == CR || data[p] == LF)
    ensures !f.errno.OK? ==> p < |data| && Rejected(cfg, f0, data, start, p)
  {
    hide ValueHs, FoldValue, IsHeaderChar, MatchValue, Scanned, Rejected;
    f, p := f0, start;
    assert Scanned(cfg, f0, data, start, f, p) by { ScannedEmpty(cfg, f0, data, start); }
    while p != |data| && data[p] != CR && data[p] != LF
      invariant start <= p <= |data| && f.errno.OK? && ValueHs(f.hs) && f.v.contentLength < TWO_64
      invariant f.lenient == f0.lenient && f.state == f0.state && Scanned(cfg, f0, data, start, f, p)
      decreases |data| - p
    {
      if !f.lenient && !IsHeaderChar(data[p]) {
        RejectedByte(cfg, f0, data, start, f, p);
        f := f.(errno := InvalidHeaderToken);
        return;
      }
      if f.hs.HGeneral? {
        var q, bad := SkipValue(cfg, f.lenient, data, p);
        if bad {
          RejectedSkip(cfg, f0, data, start, f, p, q);
          f, p := f.(errno := InvalidHeaderToken), q;
          return;
        }
        ScannedSkip(cfg, f0, data, start, f, p, q);
        p := q;
      } else {
        ScannedByte(cfg, f0, data, start, f, p);
        if !ValueByte(f, data[p]).errno.OK? { RejectedByte(cfg, f0, data, start, f, p); }
        f := MatchValue(f, data[p]);
        if !f.errno.OK? { return; }
      }
      p := p + 1;
    }
  }

  // ---- bodies ----

  /** The record after `n` more bytes of a body of known length. */
  function Less(f: Fields, n: nat): Fields
    requires n <= f.v.contentLength
  {
    f.(v := f.v.(contentLength := f.v.contentLength - n))
  }

  predicate InContent(f: Fields) { f.state.ChunkData? || f.state.BodyIdentity? }

  /** A body byte that is not the last one. */
  lemma StepContent(cfg: Config, m: Machine, ch: byte)
    requires MachineInv(cfg, m) && m.f.errno.OK? && InContent(m.f) && m.f.v.contentLength > 1
    ensures Step(cfg, m, ch) == Machine(Less(m.f, 1), Push(m.log, Data(KBody, [ch])), false)
  {
    hide OnMessageDone;
  }

  /** What the machine does with body bytes when more are to follow. */
  lemma {:induction false} RunContent(cfg: Config, m: Machine, bytes: seq<byte>)
    requires MachineInv(cfg, m) && !Stopped(m) && InContent(m.f) && 0 < |bytes| < m.f.v.contentLength
    ensures Run(cfg, m, bytes) == Machine(Less(m.f, |bytes|), Push(m.log, Data(KBody, bytes)), false)
    decreases |bytes|
  {
    hide Step, MachineInv;
    var init, last := bytes[..|bytes| - 1], bytes[|bytes| - 1];
    RunSnoc(cfg, m, bytes);
    if init == [] {
      StepContent(cfg, m, last);
      assert bytes == [last];
    } else {
      RunContent(cfg, m, init);
      StepContent(cfg, Run(cfg, m, init), last);
      PushSplit(m.log, KBody, init, [last]);
      assert init + [last] == bytes;
    }
  }

  /** The machine after the last byte of a chunk. */
  function ChunkOver(m: Machine, bytes: seq<byte>): Machine
    requires |bytes| <= m.f.v.contentLength
  {
    Machine(Less(m.f, |bytes|).(state := ChunkDataAlmostDone), Push(m.log, Data(KBody, bytes)), false)
  }

  lemma StepChunkLast(cfg: Config, m: Machine, ch: byte)
    requires MachineInv(cfg, m) && m.f.errno.OK? && m.f.state.ChunkData? && m.f.v.contentLength == 1
    ensures Step(cfg, m, ch) == ChunkOver(m, [ch])
  {
  }

  lemma ChunkOverSplit(m: Machine, init: seq<byte>, last: byte)
    requires |init| + 1 <= m.f.v.contentLength
    ensures ChunkOver(Machine(Less(m.f, |init|), Push(m.log, Data(KBody, init)), false), [last])
        == ChunkOver(m, init + [last])
  {
    hide Push;
    PushSplit(m.log, KBody, init, [last]);
  }

  /** What the machine does with the rest of a chunk. */
  lemma RunChunk(cfg: Config, m: Machine, bytes: seq<byte>)
    requires MachineInv(cfg, m) && !Stopped(m) && m.f.state.ChunkData? && 0 < |bytes| == m.f.v.contentLength
    ensures Run(cfg, m, bytes) == ChunkOver(m, bytes)
  {
    hide Step, MachineInv, ChunkOver, Push;
    var init, last := bytes[..|bytes| - 1], bytes[|bytes| - 1];
    RunSnoc(cfg, m, bytes);
    assert bytes == init + [last];
    if init == [] {
      assert bytes == [last];
      StepChunkLast(cfg, m, last);
    } else {
      RunContent(cfg, m, init);
      StepChunkLast(cfg, Run(cfg, m, init), last);
      ChunkOverSplit(m, init, last);
    }
  }

  /** What a message that is complete adds to the log, after `bytes` of its body. */
  function Finished(log: seq<Event>, bytes: seq<byte>, d: Arm): Machine {
    Machine(d.f, PushAll(Push(log, Data(KBody, bytes)), NoteEvents(d.e.notes)), d.halt)
  }

  /** The last byte of a body with a Content-Length. */
  lemma StepIdentityLast(cfg: Config, m: Machine, ch: byte)
    requires MachineInv(cfg, m) && m.f.errno.OK? && m.f.state.BodyIdentity? && m.f.v.contentLength == 1
    requires !m.f.v.ptype.Both? && m.f.index <= 17
    ensures Step(cfg, m, ch) == Finished(m.log, [ch], OnMessageDone(Less(m.f, 1)))
  {
    hide OnMessageDone;
  }

  lemma RunIdentity(cfg: Config, m: Machine, bytes: seq<byte>)
    requires MachineInv(cfg, m) && !Stopped(m) && m.f.state.BodyIdentity? && 0 < |bytes| == m.f.v.contentLength
    requires !m.f.v.ptype.Both? && m.f.index <= 17 && m.f.v.contentLength < TWO_64
    ensures Run(cfg, m, bytes) == Finished(m.log, bytes, OnMessageDone(Less(m.f, |bytes|)))
  {
    hide Step, MachineInv, OnMessageDone;
    var init, last := bytes[..|bytes| - 1], bytes[|bytes| - 1];
    RunSnoc(cfg, m, bytes);
    assert init + [last] == bytes;
    if init == [] {
      StepIdentityLast(cfg, m, last);
    } else {
      RunContent(cfg, m, init);
      var r := Run(cfg, m, init);
      hide Run;
      StepIdentityLast(cfg, r, last);
      PushSplit(m.log, KBody, init, [last]);
    }
  }

  lemma StepEof(cfg: Config, m: Machine, ch: byte)
    requires MachineInv(cfg, m) && m.f.errno.OK? && m.f.state.BodyIdentityEof?
    ensures Step(cfg, m, ch) == Machine(m.f, Push(m.log, Data(KBody, [ch])), false)
  {
  }

  /** A body that lasts until the connection closes. */
  lemma {:induction false} RunEof(cfg: Config, m: Machine, bytes: seq<byte>)
    requires MachineInv(cfg, m) && !Stopped(m) && m.f.state.BodyIdentityEof? && bytes != []
    ensures Run(cfg, m, bytes) == Machine(m.f, Push(m.log, Data(KBody, bytes)), false)
    decreases |bytes|
  {
    hide Step, MachineInv;
    var init, last := bytes[..|bytes| - 1], bytes[|bytes| - 1];
    RunSnoc(cfg, m, bytes);
    if init == [] {
      StepEof(cfg, m, last);
      assert bytes == [last];
    } else {
      RunEof(cfg, m, init);
      StepEof(cfg, Run(cfg, m, init), last);
      PushSplit(m.log, KBody, init, [last]);
      assert init + [last] == bytes;
    }
  }
}
