/** Bodies: what is delivered is what was declared, for bodies with a length and for chunked ones. */
module HttpBodies {
  import opened Bytes
  import opened HttpTypes
  import opened HttpArms
  import opened HttpMachine
  import opened HttpBulk

  // ---- conservation ----

  /** The record of the last message whose headers were complete. */
  function LastHeaders(log: seq<Event>): Option<View> {
    if log == [] then None
    else if IsHeadersComplete(log[|log| - 1]) then Some(log[|log| - 1].view)
    else LastHeaders(log[..|log| - 1])
  }

  /** How many body bytes were delivered since then. */
  function BodySince(log: seq<Event>): nat {
    if log == [] || IsHeadersComplete(log[|log| - 1]) then 0
    else (if EndsIn(log, KBody) then |log[|log| - 1].bytes| else 0) + BodySince(log[..|log| - 1])
  }

  /** Delivered plus remaining is what the headers declared. */
  predicate Conserved(m: Machine) {
    m.f.errno.OK? && m.f.state.BodyIdentity? ==>
      && LastHeaders(m.log).Some? && LastHeaders(m.log).value.flags.contentLength
      && BodySince(m.log) + m.f.v.contentLength == LastHeaders(m.log).value.contentLength
  }

  lemma PushBody(log: seq<Event>, bytes: seq<byte>)
    ensures var l := Push(log, Data(KBody, bytes));
            LastHeaders(l) == LastHeaders(log) && BodySince(l) == BodySince(log) + |bytes|
  {
    var l := Push(log, Data(KBody, bytes));
    if EndsIn(log, KBody) {
      assert l[..|l| - 1] == log[..|log| - 1];
    } else {
      assert l[..|l| - 1] == log;
    }
  }

  lemma PushNote(log: seq<Event>, note: Note, v: View)
    ensures var l := Push(log, Notify(note, v));
            if note.HeadersComplete? then LastHeaders(l) == Some(v) && BodySince(l) == 0
            else LastHeaders(l) == LastHeaders(log) && BodySince(l) == BodySince(log)
  {
    assert Push(log, Notify(note, v))[..|log|] == log;
  }

  /** The byte that ends the headers of a message with a length. */
  lemma EnterBody(f: Fields, a: Arm, log: seq<Event>, ch: byte)
    requires Good(f, a) && a.f.errno.OK? && a.f.state.BodyIdentity? && !f.state.BodyIdentity?
    ensures var l := Record(log, LiveOf(f.state), a.e, ch); LastHeaders(l) == Some(a.f.v) && BodySince(l) == 0
  {
    hide Inv, LastHeaders, BodySince;
    var l1 := if a.e.empty.Some? then Push(log, Data(a.e.empty.value, [])) else log;
    var l2 := if a.e.body then Push(l1, Data(KBody, [ch])) else l1;
    PushAllOne(l2, Notify(HeadersComplete, a.f.v));
    PushNote(l2, HeadersComplete, a.f.v);
  }

  /** A byte of a body with a length. */
  lemma InsideBody(f: Fields, a: Arm, log: seq<Event>, ch: byte)
    requires Good(f, a) && a.f.errno.OK? && f.state.BodyIdentity?
    ensures var l := Record(log, LiveOf(f.state), a.e, ch);
            LastHeaders(l) == LastHeaders(log) && BodySince(l) == BodySince(log) + 1
  {
    hide Inv, LastHeaders, BodySince, Push;
    PushBody(log, [ch]);
    if a.e.notes.Once? {
      PushAllOne(Push(log, Data(KBody, [ch])), Notify(a.e.notes.note, a.e.notes.view));
      PushNote(Push(log, Data(KBody, [ch])), a.e.notes.note, a.e.notes.view);
    }
  }

  /** One step conserves, and the step that completes the message has delivered all of it. */
  lemma StepConserves(cfg: Config, m: Machine, ch: byte)
    requires MachineInv(cfg, m) && !Stopped(m) && Conserved(m)
    ensures Conserved(Step(cfg, m, ch))
    ensures var r := Step(cfg, m, ch);
            m.f.state.BodyIdentity? && !r.f.state.BodyIdentity? ==>
              r.f.errno.OK? && LastHeaders(r.log) == LastHeaders(m.log)
              && BodySince(r.log) == LastHeaders(m.log).value.contentLength
  {
    hide Inv, Switch, LastHeaders, BodySince, Record, Fits;
    CountedKeeps(m.f);
    var f := Counted(m.f);
    if f.nread <= cfg.maxHeader {
      var a := Switch(cfg, f, ch);
      if m.f.state.BodyIdentity? {
        IdentityGoesOn(cfg, f, ch);
        InsideBody(f, a, m.log, ch);
      } else if a.f.errno.OK? && a.f.state.BodyIdentity? {
        EnterBody(f, a, m.log, ch);
        BodyHasLength(a.f);
      }
    }
  }

  lemma BodyHasLength(f: Fields)
    requires Inv(f) && f.state.BodyIdentity?
    ensures f.v.flags.contentLength
  {
  }

  lemma IdentityGoesOn(cfg: Config, f: Fields, ch: byte)
    requires Inv(f) && f.state.BodyIdentity?
    ensures Switch(cfg, f, ch).f.errno.OK? && f.v.contentLength > 0
  {
  }

  /**
    * Body conservation: after any stream, cut in any way, the body bytes delivered and the length that remains add up
    * to the Content-Length that `on_headers_complete` saw.
    */
  lemma {:induction false} RunConserves(cfg: Config, m: Machine, data: seq<byte>)
    requires MachineInv(cfg, m) && Conserved(m)
    ensures Conserved(Run(cfg, m, data))
    decreases |data|
  {
    hide MachineInv, Step, Conserved;
    if data != [] && !Stopped(m) {
      StepConserves(cfg, m, data[0]);
      RunConserves(cfg, Step(cfg, m, data[0]), data[1..]);
    }
  }

  // ---- the value of a Content-Length header ----

  predicate AllDigits(bytes: seq<byte>) { forall i | 0 <= i < |bytes| :: IsNum(bytes[i]) }

  function Decimal(digits: seq<byte>): nat
    requires AllDigits(digits)
  {
    if digits == [] then 0 else Decimal(digits[..|digits| - 1]) * 10 + (digits[|digits| - 1] - 48)
  }

  /** The source's conservative limit on what may stand before a last digit. */
  const DECIMAL_LIMIT: nat := (NO_LENGTH - 10) / 10

  predicate BeforeLength(cfg: Config, m: Machine) {
    && MachineInv(cfg, m) && !Stopped(m) && m.f.state == Discard(DiscardWs) && m.f.hs.HContentLength?
    && !m.f.v.flags.contentLength
  }

  function WithLength(m: Machine, n: nat, digits: seq<byte>): Machine {
    Machine(m.f.(state := HeaderValue, index := 0, hs := HContentLengthNum, nread := m.f.nread + |digits|,
                 v := m.f.v.(contentLength := n, flags := m.f.v.flags.(contentLength := true))),
            Push(m.log, Data(KValue, digits)), false)
  }

  lemma FirstDigit(cfg: Config, m: Machine, ch: byte)
    requires BeforeLength(cfg, m) && IsNum(ch) && m.f.nread < cfg.maxHeader
    ensures Step(cfg, m, ch) == WithLength(m, ch - 48, [ch])
  {
    hide Fits, NotesOk, IndexOk, LayerOk, LengthOk, TypeOk, Tail;
  }

  lemma NextDigit(f: Fields, ch: byte)
    requires f.hs.HContentLengthNum? && f.v.contentLength < TWO_64 && IsNum(ch) && f.errno.OK?
    ensures var g := ValueByte(f, ch);
            if f.v.contentLength <= DECIMAL_LIMIT
            then g == f.(v := f.v.(contentLength := f.v.contentLength * 10 + (ch - 48)))
            else !g.errno.OK?
  {
  }

  lemma FurtherDigit(cfg: Config, m: Machine, n: nat, digits: seq<byte>, ch: byte)
    requires digits != [] && IsNum(ch) && n < NO_LENGTH && m.f.errno.OK? && m.f.nread + |digits| < cfg.maxHeader
    requires MachineInv(cfg, WithLength(m, n, digits))
    ensures var r := Step(cfg, WithLength(m, n, digits), ch);
            if n <= DECIMAL_LIMIT
            then r == WithLength(m, n * 10 + (ch - 48), digits + [ch]) && n * 10 + (ch - 48) < NO_LENGTH
            else !r.f.errno.OK?
  {
    hide Step, ValueByte, MachineInv, Push;
    var r := WithLength(m, n, digits);
    NextDigit(r.f, ch);
    assert ValueHs(r.f.hs);
    StepValue(cfg, r, ch);
    PushSplit(m.log, KValue, digits, [ch]);
  }

  /**
    * The digits of a Content-Length header give exactly their decimal value; the parse fails exactly when the digits
    * before the last one exceed the limit, so the 64-bit arithmetic never wraps.
    */
  lemma {:induction false} LengthExact(cfg: Config, m: Machine, digits: seq<byte>)
    requires BeforeLength(cfg, m) && digits != [] && AllDigits(digits) && m.f.nread + |digits| <= cfg.maxHeader
    ensures var r := Run(cfg, m, digits);
            if Decimal(digits[..|digits| - 1]) <= DECIMAL_LIMIT
            then r == WithLength(m, Decimal(digits), digits) && Decimal(digits) < NO_LENGTH
            else !r.f.errno.OK?
    decreases |digits|
  {
    hide Step, MachineInv, Push;
    var init, last := digits[..|digits| - 1], digits[|digits| - 1];
    RunSnoc(cfg, m, digits);
    assert digits == init + [last];
    if init == [] {
      FirstDigit(cfg, m, last);
      assert digits == [last];
    } else {
      LengthExact(cfg, m, init);
      if Decimal(init[..|init| - 1]) <= DECIMAL_LIMIT { FurtherDigit(cfg, m, Decimal(init), init, last); }
    }
  }

  // ---- chunked bodies ----

  predicate IsHexDigit(c: byte) { IsNum(c) || 65 <= c <= 70 || 97 <= c <= 102 }

  /** The bytes the parser takes for a digit: hexadecimal digits, and all bytes from 128 on, which count as 0. */
  predicate IsSizeByte(c: byte) { IsHexDigit(c) || c >= 128 }

  predicate AllSize(bytes: seq<byte>) { forall i | 0 <= i < |bytes| :: IsSizeByte(bytes[i]) }

  function HexValue(digits: seq<byte>): nat
    requires AllSize(digits)
  {
    if digits == [] then 0 else HexValue(digits[..|digits| - 1]) * 16 + Unhex(digits[|digits| - 1])
  }

  /** The source's conservative limit on what may stand before a last digit. */
  const HEX_LIMIT: nat := (NO_LENGTH - 16) / 16

  predicate SizeOk(digits: seq<byte>) {
    digits != [] && AllSize(digits) && HexValue(digits[..|digits| - 1]) <= HEX_LIMIT
  }

  /** One chunk in the coding of section 4.1 of RFC 7230: its size in hexadecimal, an extension, and its data. */
  datatype Chunk = Chunk(digits: seq<byte>, ext: seq<byte>, data: seq<byte>)

  predicate ExtOk(ext: seq<byte>) {
    ext == [] || ((ext[0] == 59 /* ; */ || ext[0] == SP) && CR !in ext)
  }

  predicate ChunkOk(cfg: Config, c: Chunk) {
    && SizeOk(c.digits) && HexValue(c.digits) == |c.data|
    && ExtOk(c.ext) && |c.digits| + |c.ext| + 2 <= cfg.maxHeader
  }

  function SizeLine(c: Chunk): seq<byte> { c.digits + c.ext + [CR, LF] }

  predicate AtChunk(cfg: Config, m: Machine) {
    MachineInv(cfg, m) && !Stopped(m) && m.f.state.ChunkSizeStart? && m.f.nread == 0
  }

  function InSize(m: Machine, digits: seq<byte>): Machine
    requires AllSize(digits)
  {
    m.(f := m.f.(state := ChunkSize, nread := |digits|, v := m.f.v.(contentLength := HexValue(digits))))
  }

  lemma FirstHex(cfg: Config, m: Machine, ch: byte)
    requires AtChunk(cfg, m) && 0 < cfg.maxHeader
    ensures
      if IsSizeByte(ch)
      then Step(cfg, m, ch) == m.(f := m.f.(state := ChunkSize, nread := 1, v := m.f.v.(contentLength := Unhex(ch))))
      else !Step(cfg, m, ch).f.errno.OK?
  {
  }

  lemma NextHex(cfg: Config, m: Machine, ch: byte)
    requires MachineInv(cfg, m) && !Stopped(m) && m.f.state.ChunkSize? && m.f.nread < cfg.maxHeader
    requires ch != CR && ch != SP && ch != 59 /* ; */
    ensures
      var n := m.f.v.contentLength;
      if IsSizeByte(ch) && n <= HEX_LIMIT
      then Step(cfg, m, ch) == m.(f := m.f.(nread := m.f.nread + 1, v := m.f.v.(contentLength := n * 16 + Unhex(ch))))
      else !Step(cfg, m, ch).f.errno.OK?
  {
  }

  /** Bytes that neither end a size nor start an extension. */
  predicate NoSizeEnd(bytes: seq<byte>) { CR !in bytes && SP !in bytes && 59 !in bytes }

  /**
    * The value of a chunk size: bytes that do not end it are accepted exactly if all of them count as digits and what
    * stands before the last is at most the limit; then the size is their value.
    */
  lemma {:induction false} SizeExact(cfg: Config, m: Machine, bytes: seq<byte>)
    requires AtChunk(cfg, m) && bytes != [] && NoSizeEnd(bytes) && |bytes| <= cfg.maxHeader
    ensures
      var r := Run(cfg, m, bytes);
      && (r.f.errno.OK? <==> SizeOk(bytes))
      && (r.f.errno.OK? ==> r == InSize(m, bytes))
    decreases |bytes|
  {
    hide Step, MachineInv;
    var init, last := bytes[..|bytes| - 1], bytes[|bytes| - 1];
    RunSnoc(cfg, m, bytes);
    assert bytes == init + [last];
    if init == [] {
      FirstHex(cfg, m, last);
    } else {
      SizeExact(cfg, m, init);
      if SizeOk(init) {
        NextHex(cfg, Run(cfg, m, init), last);
      } else if SizeOk(bytes) {
        ShorterOk(bytes);
        assert false;
      }
    }
  }

  lemma ShorterOk(digits: seq<byte>)
    requires SizeOk(digits) && |digits| > 1
    ensures SizeOk(digits[..|digits| - 1])
  {
    var init := digits[..|digits| - 1];
    assert AllSize(init);
    assert HexValue(init) >= HexValue(init[..|init| - 1]);
  }

  lemma RunDigits(cfg: Config, m: Machine, digits: seq<byte>)
    requires AtChunk(cfg, m) && SizeOk(digits) && |digits| <= cfg.maxHeader
    ensures Run(cfg, m, digits) == InSize(m, digits)
  {
    hide Step, MachineInv;
    assert NoSizeEnd(digits);
    SizeExact(cfg, m, digits);
  }

  /** A size that is not hexadecimal: the byte 0x80 alone is taken for the last chunk. */
  lemma NotHexadecimal(cfg: Config, m: Machine)
    requires AtChunk(cfg, m) && cfg.maxHeader >= 3
    ensures !IsHexDigit(0x80) && Run(cfg, m, [0x80, CR, LF]) == AfterSize(m, 0)
  {
    hide Step, MachineInv;
    var digits: seq<byte> := [0x80];
    assert digits[..0] == [] && HexValue(digits) == 0;
    var c := Chunk(digits, [], []);
    assert SizeLine(c) == [0x80, CR, LF];
    RunSizeLine(cfg, m, c);
  }

  predicate InSizeLine(s: State) { s.ChunkSize? || s.ChunkParameters? }

  lemma StepExt(cfg: Config, m: Machine, ch: byte)
    requires MachineInv(cfg, m) && !Stopped(m) && m.f.nread < cfg.maxHeader
    requires (m.f.state.ChunkSize? && (ch == 59 || ch == SP)) || (m.f.state.ChunkParameters? && ch != CR)
    ensures Step(cfg, m, ch) == m.(f := m.f.(state := ChunkParameters, nread := m.f.nread + 1))
  {
  }

  lemma {:induction false} RunExt(cfg: Config, m: Machine, ext: seq<byte>)
    requires MachineInv(cfg, m) && !Stopped(m) && m.f.state.ChunkSize? && ExtOk(ext)
        && m.f.nread + |ext| <= cfg.maxHeader
    ensures var r := Run(cfg, m, ext);
            r == m.(f := m.f.(state := if ext == [] then ChunkSize else ChunkParameters, nread := m.f.nread + |ext|))
    decreases |ext|
  {
    hide Step, MachineInv;
    if ext != [] {
      var init, last := ext[..|ext| - 1], ext[|ext| - 1];
      RunSnoc(cfg, m, ext);
      RunExt(cfg, m, init);
      StepExt(cfg, Run(cfg, m, init), last);
    }
  }

  lemma StepSizeCR(cfg: Config, m: Machine)
    requires MachineInv(cfg, m) && !Stopped(m) && InSizeLine(m.f.state) && m.f.nread < cfg.maxHeader
    ensures Step(cfg, m, CR) == m.(f := m.f.(state := ChunkSizeAlmostDone, nread := m.f.nread + 1))
  {
  }

  /** The record after a chunk-size line with size `n`, and the notification it makes. */
  function SizedView(v: View, n: nat): View {
    v.(contentLength := n, flags := if n == 0 then v.flags.(trailing := true) else v.flags)
  }

  lemma StepSizeLF(cfg: Config, m: Machine)
    requires MachineInv(cfg, m) && !Stopped(m) && m.f.state.ChunkSizeAlmostDone? && m.f.nread < cfg.maxHeader
    ensures var n := m.f.v.contentLength;
            var v := SizedView(m.f.v, n);
            Step(cfg, m, LF)
              == Machine(m.f.(state := if n == 0 then HeaderFieldStart else ChunkData, nread := 0, v := v),
                                        Push(m.log, Notify(ChunkHeader, v)), false)
  {
    PushAllOne(m.log, Notify(ChunkHeader, SizedView(m.f.v, m.f.v.contentLength)));
  }

  function AfterSize(m: Machine, n: nat): Machine {
    var v := SizedView(m.f.v, n);
    Machine(m.f.(state := if n == 0 then HeaderFieldStart else ChunkData, nread := 0, v := v),
            Push(m.log, Notify(ChunkHeader, v)), false)
  }

  lemma RunSizeLine(cfg: Config, m: Machine, c: Chunk)
    requires AtChunk(cfg, m) && ChunkOk(cfg, c)
    ensures Run(cfg, m, SizeLine(c)) == AfterSize(m, |c.data|)
  {
    hide Step, MachineInv, ExtOk;
    RunDigits(cfg, m, c.digits);
    var m1 := Run(cfg, m, c.digits);
    RunExt(cfg, m1, c.ext);
    var m2 := Run(cfg, m1, c.ext);
    StepSizeCR(cfg, m2);
    var m3 := Step(cfg, m2, CR);
    StepSizeLF(cfg, m3);
    RunConcat(cfg, m, c.digits + c.ext, [CR, LF]);
    RunConcat(cfg, m, c.digits, c.ext);
    RunTwo(cfg, m2, CR, LF);
  }

  lemma StepDataCR(cfg: Config, m: Machine)
    requires MachineInv(cfg, m) && !Stopped(m) && m.f.state.ChunkDataAlmostDone?
    ensures Step(cfg, m, CR) == m.(f := m.f.(state := ChunkDataDone))
  {
  }

  lemma StepDataLF(cfg: Config, m: Machine)
    requires MachineInv(cfg, m) && !Stopped(m) && m.f.state.ChunkDataDone?
    ensures Step(cfg, m, LF)
        == Machine(m.f.(state := ChunkSizeStart, nread := 0), Push(m.log, Notify(ChunkComplete, m.f.v)), false)
  {
    PushAllOne(m.log, Notify(ChunkComplete, m.f.v));
  }

  /** A chunk on the wire. */
  function Wire(c: Chunk): seq<byte> { SizeLine(c) + (c.data + [CR, LF]) }

  /** The three callbacks of a chunk. */
  function ChunkEvents(c: Chunk, v: View): seq<Event> {
    [Notify(ChunkHeader, v.(contentLength := |c.data|)), Data(KBody, c.data),
      Notify(ChunkComplete, v.(contentLength := 0))]
  }

  lemma RunOneChunk(cfg: Config, m: Machine, c: Chunk)
    requires AtChunk(cfg, m) && ChunkOk(cfg, c) && c.data != []
    ensures Run(cfg, m, Wire(c))
            == Machine(m.f.(state := ChunkSizeStart, nread := 0, v := m.f.v.(contentLength := 0)),
                       m.log + ChunkEvents(c, m.f.v), false)
  {
    hide Step, MachineInv, ChunkOk;
    RunSizeLine(cfg, m, c);
    var m1 := Run(cfg, m, SizeLine(c));
    RunChunk(cfg, m1, c.data);
    var m2 := Run(cfg, m1, c.data);
    StepDataCR(cfg, m2);
    StepDataLF(cfg, Step(cfg, m2, CR));
    RunTwo(cfg, m2, CR, LF);
    RunConcat(cfg, m1, c.data, [CR, LF]);
    RunConcat(cfg, m, SizeLine(c), c.data + [CR, LF]);
    assert m1.log == m.log + [Notify(ChunkHeader, m.f.v.(contentLength := |c.data|))];
    assert m2.log == m1.log + [Data(KBody, c.data)];
  }

  function WireAll(chunks: seq<Chunk>): seq<byte> {
    if chunks == [] then [] else WireAll(chunks[..|chunks| - 1]) + Wire(chunks[|chunks| - 1])
  }

  function EventsOf(chunks: seq<Chunk>, v: View): seq<Event> {
    if chunks == [] then [] else EventsOf(chunks[..|chunks| - 1], v) + ChunkEvents(chunks[|chunks| - 1], v)
  }

  lemma {:induction false} RunChunks(cfg: Config, m: Machine, chunks: seq<Chunk>)
    requires AtChunk(cfg, m) && forall i | 0 <= i < |chunks| :: ChunkOk(cfg, chunks[i]) && chunks[i].data != []
    ensures var r := Run(cfg, m, WireAll(chunks));
            && r.f == m.f.(nread := 0, v := if chunks == [] then m.f.v else m.f.v.(contentLength := 0))
            && r.log == m.log + EventsOf(chunks, m.f.v) && !r.halted
    decreases |chunks|
  {
    hide Step, ChunkOk, Wire, ChunkEvents, MachineInv;
    if chunks != [] {
      var init, last := chunks[..|chunks| - 1], chunks[|chunks| - 1];
      RunChunks(cfg, m, init);
      var r := Run(cfg, m, WireAll(init));
      RunOneChunk(cfg, r, last);
      ChunkEventsView(last, r.f.v, m.f.v);
      RunConcat(cfg, m, WireAll(init), Wire(last));
    }
  }

  lemma ChunkEventsView(c: Chunk, v: View, w: View)
    requires v.(contentLength := 0) == w.(contentLength := 0)
    ensures ChunkEvents(c, v) == ChunkEvents(c, w)
  {
    assert v.(contentLength := |c.data|) == v.(contentLength := 0).(contentLength := |c.data|);
    assert w.(contentLength := |c.data|) == w.(contentLength := 0).(contentLength := |c.data|);
  }

  lemma StepTrailerCR(cfg: Config, m: Machine)
    requires MachineInv(cfg, m) && !Stopped(m) && m.f.state.HeaderFieldStart? && m.f.nread < cfg.maxHeader
    ensures Step(cfg, m, CR) == m.(f := m.f.(state := HeadersAlmostDone, nread := m.f.nread + 1))
  {
  }

  lemma StepTrailerLF(cfg: Config, m: Machine)
    requires MachineInv(cfg, m) && !Stopped(m) && m.f.state.HeadersAlmostDone? && m.f.v.flags.trailing
    requires m.f.nread < cfg.maxHeader
    ensures Step(cfg, m, LF)
            == Machine(m.f.(state := NewMessage(m.f.v), nread := m.f.nread + 1),
                       m.log + [Notify(ChunkComplete, m.f.v), Notify(MessageComplete, m.f.v)], m.f.v.upgrade)
  {
    hide NewMessage;
    PushAllTwo(m.log, Notify(ChunkComplete, m.f.v), Notify(MessageComplete, m.f.v));
  }

  /** A chunked body: the chunks, a chunk of size zero, and an empty trailer section. */
  function ChunkedBody(chunks: seq<Chunk>, last: Chunk): seq<byte> { WireAll(chunks) + (SizeLine(last) + [CR, LF]) }

  /**
    * Chunked coding: any chunks, with any spelling of their sizes and any extensions, are delivered one by one with a
    * chunk-header and a chunk-complete notification each, then the final pair, and a single message-complete.
    */
  lemma ChunkedDelivery(cfg: Config, m: Machine, chunks: seq<Chunk>, last: Chunk)
    requires AtChunk(cfg, m) && forall i | 0 <= i < |chunks| :: ChunkOk(cfg, chunks[i]) && chunks[i].data != []
    requires ChunkOk(cfg, last) && last.data == []
    ensures var r := Run(cfg, m, ChunkedBody(chunks, last));
            var v := m.f.v.(contentLength := 0, flags := m.f.v.flags.(trailing := true));
            && r.f.errno.OK? && r.f.state == NewMessage(v) && r.halted == v.upgrade
            && r.log == m.log + EventsOf(chunks, m.f.v)
                        + [Notify(ChunkHeader, v), Notify(ChunkComplete, v), Notify(MessageComplete, v)]
  {
    hide Step, MachineInv, EventsOf, WireAll, NewMessage;
    var v := m.f.v.(contentLength := 0, flags := m.f.v.flags.(trailing := true));
    RunChunks(cfg, m, chunks);
    var m1 := Run(cfg, m, WireAll(chunks));
    RunSizeLine(cfg, m1, last);
    var m2 := Run(cfg, m1, SizeLine(last));
    assert m2.f.v == v && m2.log == m1.log + [Notify(ChunkHeader, v)];
    StepTrailerCR(cfg, m2);
    var m3 := Step(cfg, m2, CR);
    StepTrailerLF(cfg, m3);
    RunTwo(cfg, m2, CR, LF);
    RunConcat(cfg, m1, SizeLine(last), [CR, LF]);
    RunConcat(cfg, m, WireAll(chunks), SizeLine(last) + [CR, LF]);
    var all := m.log + EventsOf(chunks, m.f.v);
    assert all + [Notify(ChunkHeader, v), Notify(ChunkComplete, v), Notify(MessageComplete, v)]
        == all + [Notify(ChunkHeader, v)] + [Notify(ChunkComplete, v), Notify(MessageComplete, v)];
  }

  /** The body bytes of some events, in order. */
  function BodyBytes(log: seq<Event>): seq<byte> {
    if log == [] then []
    else BodyBytes(log[..|log| - 1]) + (if EndsIn(log, KBody) then log[|log| - 1].bytes else [])
  }

  function Payload(chunks: seq<Chunk>): seq<byte> {
    if chunks == [] then [] else Payload(chunks[..|chunks| - 1]) + chunks[|chunks| - 1].data
  }

  lemma BodyMore(log: seq<Event>, e: Event)
    ensures BodyBytes(log + [e]) == BodyBytes(log) + if e.Data? && e.kind == KBody then e.bytes else []
  {
    assert (log + [e])[..|log|] == log;
  }

  /** The body bytes of a chunk's events are its data. */
  lemma ChunkDelivered(log: seq<Event>, c: Chunk, v: View)
    ensures BodyBytes(log + ChunkEvents(c, v)) == BodyBytes(log) + c.data
  {
    hide BodyBytes;
    var evs := ChunkEvents(c, v);
    var a := log + [evs[0]];
    BodyMore(log, evs[0]);
    BodyMore(a, evs[1]);
    BodyMore(a + [evs[1]], evs[2]);
    assert log + evs == a + [evs[1]] + [evs[2]];
  }

  /** What is delivered is the concatenation of the chunks. */
  lemma {:induction false} PayloadDelivered(chunks: seq<Chunk>, v: View)
    ensures BodyBytes(EventsOf(chunks, v)) == Payload(chunks)
    decreases |chunks|
  {
    if chunks != [] {
      hide BodyBytes, ChunkEvents;
      var init, last := chunks[..|chunks| - 1], chunks[|chunks| - 1];
      PayloadDelivered(init, v);
      ChunkDelivered(EventsOf(init, v), last, v);
    }
  }
}
