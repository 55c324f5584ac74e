/** Which bytes are a trailer section: header lines of tokens and header characters, and an empty line. */
module HttpTrailerLines {
  import opened Bytes
  import opened HttpTypes
  import opened HttpArms
  import opened HttpMachine
  import opened HttpBulk
  import opened HttpParser
  import opened HttpBodies
  import opened HttpNames
  import opened HttpTrailers
  import HttpLength

  /** One line of a trailer section, in the grammar of section 4.1.2 of RFC 7230 without its blanks behind the value. */
  datatype Line = Line(name: seq<byte>, value: seq<byte>)

  /** A token, and any header characters; a Content-Length is not allowed there. */
  predicate LineOk(l: Line) {
    && l.name != [] && AllTokens(l.name) && Lowered(l.name) != CONTENT_LENGTH
    && ValueOk(l.value)
  }

  predicate ValueOk(value: seq<byte>) {
    forall i | 0 <= i < |value| :: IsHeaderChar(value[i]) && value[i] != CR && value[i] != LF
  }

  function LineBytes(l: Line): seq<byte> { l.name + ([58] + (l.value + [CR, LF])) }

  function LinesBytes(lines: seq<Line>): seq<byte> {
    if lines == [] then [CR, LF] else LineBytes(lines[0]) + LinesBytes(lines[1..])
  }

  /** All bytes are taken, and the parser stays in the trailer section. */
  predicate Stays(cfg: Config, m: Machine, bytes: seq<byte>)
    requires MachineInv(cfg, m) && m.f.errno.OK?
    decreases |bytes|
  {
    bytes != [] ==>
      var s := Step(cfg, m, bytes[0]);
      !Stopped(s) && InHeaders(s.f.state) && Stays(cfg, s, bytes[1..])
  }

  lemma {:induction false} StaysThen(cfg: Config, m: Machine, a: seq<byte>, b: seq<byte>)
    requires MachineInv(cfg, m) && !Stopped(m) && Stays(cfg, m, a) && b != []
    ensures !Stopped(Run(cfg, m, a))
    ensures TrailerSection(cfg, Run(cfg, m, a), b) ==> TrailerSection(cfg, m, a + b)
    ensures Stays(cfg, Run(cfg, m, a), b) ==> Stays(cfg, m, a + b)
    decreases |a|
  {
    hide Step, MachineInv, InHeaders;
    if a == [] {
      assert a + b == b;
    } else {
      assert (a + b)[0] == a[0] && (a + b)[1..] == a[1..] + b;
      StaysThen(cfg, Step(cfg, m, a[0]), a[1..], b);
    }
  }

  // ---- one line ----

  /** In front of a line, or of the empty line at the end. */
  predicate AtLine(cfg: Config, m: Machine) {
    && MachineInv(cfg, m) && !Stopped(m) && m.f.v.flags.trailing
    && (m.f.state.HeaderFieldStart? || m.f.state.HeaderValueLws?
      || (m.f.state == Discard(DiscardLws) && !m.f.hs.HContentLength?))
  }

  predicate InName(cfg: Config, m: Machine, name: seq<byte>) {
    && MachineInv(cfg, m) && !Stopped(m) && m.f.v.flags.trailing && m.f.state.HeaderField?
    && NameRead(m.f.hs, m.f.index, name)
  }

  predicate NotLength(hs: HeaderState) { !hs.HContentLength? && !hs.HContentLengthNum? && !hs.HContentLengthWs? }

  predicate InTrailerValue(cfg: Config, m: Machine) {
    && MachineInv(cfg, m) && !Stopped(m) && m.f.v.flags.trailing && NotLength(m.f.hs)
    && (m.f.state == Discard(DiscardWs) || m.f.state.HeaderValue?)
  }

  predicate BehindCR(cfg: Config, m: Machine) {
    && MachineInv(cfg, m) && !Stopped(m) && m.f.v.flags.trailing
    && (m.f.state.HeaderAlmostDone? || (m.f.state == Discard(DiscardWsAlmostDone) && !m.f.hs.HContentLength?))
  }

  /** A step within the trailer section, by its arm. */
  lemma TrailerStep(cfg: Config, m: Machine, ch: byte)
    requires MachineInv(cfg, m) && !Stopped(m) && InHeaders(m.f.state) && m.f.v.flags.trailing
        && m.f.nread < cfg.maxHeader
    ensures Inv(m.f.(nread := m.f.nread + 1))
    ensures
      var a := OnHeaders(cfg, m.f.(nread := m.f.nread + 1), ch);
      a.f.errno.OK? && InHeaders(a.f.state) ==>
        var s := Step(cfg, m, ch);
        s.f == a.f && !Stopped(s) && s.f.nread == m.f.nread + 1 && s.f.v.flags.trailing
  {
    hide Inv, Record, OnHeaders, Fits, NotesOk, ShouldKeepAlive;
    StepGiven(cfg, m, ch);
    var f := m.f.(nread := m.f.nread + 1);
    assert Counted(m.f) == f;
    HeadersTrail(cfg, f, ch);
    assert Switch(cfg, f, ch) == OnHeaders(cfg, f, ch);
    TrailerCounter(cfg, f, ch);
  }

  /** The counter is not reset inside the section. */
  lemma TrailerCounter(cfg: Config, f: Fields, ch: byte)
    requires InHeaders(f.state) && Inv(f) && f.v.flags.trailing && f.nread > 0
    ensures var a := OnHeaders(cfg, f, ch); a.f.errno.OK? && InHeaders(a.f.state) ==> a.f.nread == f.nread
  {
    hide Inv, Good, OnFieldStart, OnField, OnValue, OnDiscard, OnAfterValue, OnHeadersAlmostDone;
    if f.state.HeaderFieldStart? || f.state.HeadersAlmostDone? {
      StartCounter(cfg, f, ch);
    } else if f.state.HeaderField? || f.state.HeaderValue? {
      TextCounter(f, ch);
    } else {
      LineCounter(cfg, f, ch);
    }
  }

  lemma StartCounter(cfg: Config, f: Fields, ch: byte)
    requires Inv(f) && f.v.flags.trailing && f.nread > 0 && (f.state.HeaderFieldStart? || f.state.HeadersAlmostDone?)
    ensures
      var a := if f.state.HeaderFieldStart? then OnFieldStart(cfg, f, ch) else OnHeadersAlmostDone(cfg, f, ch);
      a.f.errno.OK? && InHeaders(a.f.state) ==> a.f.nread == f.nread
  {
    hide Inv, NewMessage, OnHeadersDone, FirstHs;
  }

  lemma TextCounter(f: Fields, ch: byte)
    requires Inv(f) && (f.state.HeaderField? || f.state.HeaderValue?)
    ensures
      var a := if f.state.HeaderField? then OnField(f, ch) else OnValue(f, ch);
      a.f.errno.OK? ==> a.f.nread == f.nread
  {
    hide Inv, MatchLength, MatchToken;
  }

  lemma LineCounter(cfg: Config, f: Fields, ch: byte)
    requires Inv(f) && f.v.flags.trailing && f.nread > 0
    requires f.state.Discard? || f.state.HeaderAlmostDone? || f.state.HeaderValueLws?
    ensures
      var a := if f.state.Discard? then OnDiscard(cfg, f, ch) else OnAfterValue(cfg, f, ch);
      a.f.errno.OK? && InHeaders(a.f.state) ==> a.f.nread == f.nread
  {
    hide OnFieldStart, OnValueStart, Good, InHeaders;
    if f.state.Discard? || f.state.HeaderValueLws? {
      var g := HeaderDone(f);
      FlagTrails(f);
      StartCounter(cfg, g, ch);
    }
    hide Inv, HeaderDone;
  }

  lemma FlagTrails(f: Fields)
    requires Inv(f) && (InValue(f.state) || f.state.Discard?) && f.v.flags.trailing
    ensures HeaderDone(f).v.flags.trailing
  {
    hide Inv, SetFlag;
    HttpLength.FlagKeepsLength(f.v.flags, f.hs);
  }

  lemma StepNameStart(cfg: Config, m: Machine, ch: byte)
    requires AtLine(cfg, m) && Token(ch) != 0 && m.f.nread < cfg.maxHeader
    ensures var s := Step(cfg, m, ch); InName(cfg, s, [ch]) && s.f.nread == m.f.nread + 1
  {
    hide MachineInv, NameRead, Step, OnHeaders;
    TrailerStep(cfg, m, ch);
    NameBegins(ch);
    NameStartArm(cfg, m.f.(nread := m.f.nread + 1), ch);
  }

  lemma NameStartArm(cfg: Config, f: Fields, ch: byte)
    requires f.state.HeaderFieldStart? || f.state.HeaderValueLws?
        || (f.state == Discard(DiscardLws) && !f.hs.HContentLength?)
    requires Inv(f) && Token(ch) != 0
    ensures
      var a := OnHeaders(cfg, f, ch);
      a.f.errno.OK? && a.f.state.HeaderField? && a.f.hs == FirstHs(Token(ch)) && a.f.index == 0
  {
    hide FirstHs, OnHeadersAlmostDone, Fits, NotesOk, IndexOk, LayerOk, LengthOk, TypeOk;
  }

  lemma StepName(cfg: Config, m: Machine, name: seq<byte>, ch: byte)
    requires InName(cfg, m, name) && Token(ch) != 0 && m.f.nread < cfg.maxHeader
    ensures var s := Step(cfg, m, ch); InName(cfg, s, name + [ch]) && s.f.nread == m.f.nread + 1
  {
    ReadyField(cfg, m);
    hide Inv, Step, NameRead, MatchField;
    StepField(cfg, m, ch);
    NameGoesOn(m.f, name, ch);
  }

  lemma StepColon(cfg: Config, m: Machine, name: seq<byte>)
    requires InName(cfg, m, name) && Lowered(name) != CONTENT_LENGTH && m.f.nread < cfg.maxHeader
    ensures var s := Step(cfg, m, 58); InTrailerValue(cfg, s) && s.f.nread == m.f.nread + 1
  {
    ReadyField(cfg, m);
    hide Inv, Step;
    StepFieldEnd(cfg, m, 58);
    NamesRecognised(Lowered(name));
  }

  lemma StepTrailerValue(cfg: Config, m: Machine, ch: byte)
    requires InTrailerValue(cfg, m) && IsHeaderChar(ch) && ch != CR && ch != LF && m.f.nread < cfg.maxHeader
    ensures var s := Step(cfg, m, ch); InTrailerValue(cfg, s) && s.f.nread == m.f.nread + 1
  {
    hide MachineInv, Step, OnHeaders;
    TrailerStep(cfg, m, ch);
    ValueArm(cfg, m.f.(nread := m.f.nread + 1), ch);
  }

  lemma ValueArm(cfg: Config, f: Fields, ch: byte)
    requires (f.state == Discard(DiscardWs) || f.state.HeaderValue?) && Inv(f) && NotLength(f.hs)
    requires IsHeaderChar(ch) && ch != CR && ch != LF
    ensures
      var a := OnHeaders(cfg, f, ch);
      a.f.errno.OK? && NotLength(a.f.hs) && (a.f.state == Discard(DiscardWs) || a.f.state.HeaderValue?)
  {
    hide ValueNext, ValueIndex, ValueStartHs, TokenFlags, Fits, NotesOk, IndexOk, LengthOk, TypeOk;
  }

  lemma StepLineCR(cfg: Config, m: Machine)
    requires InTrailerValue(cfg, m) && m.f.nread < cfg.maxHeader
    ensures var s := Step(cfg, m, CR); BehindCR(cfg, s) && s.f.nread == m.f.nread + 1
  {
    hide MachineInv, Step;
    TrailerStep(cfg, m, CR);
  }

  lemma StepLineLF(cfg: Config, m: Machine)
    requires BehindCR(cfg, m) && m.f.nread < cfg.maxHeader
    ensures var s := Step(cfg, m, LF); AtLine(cfg, s) && s.f.nread == m.f.nread + 1
  {
    hide MachineInv, Step;
    TrailerStep(cfg, m, LF);
  }

  lemma {:induction false} NameStays(cfg: Config, m: Machine, read: seq<byte>, rest: seq<byte>)
    requires InName(cfg, m, read) && AllTokens(rest) && m.f.nread + |rest| <= cfg.maxHeader
    ensures Stays(cfg, m, rest)
    ensures var r := Run(cfg, m, rest); InName(cfg, r, read + rest) && r.f.nread == m.f.nread + |rest|
    decreases |rest|
  {
    hide MachineInv, Step, NameRead, Token;
    if rest == [] {
      assert read + rest == read;
    } else {
      StepName(cfg, m, read, rest[0]);
      NameStays(cfg, Step(cfg, m, rest[0]), read + [rest[0]], rest[1..]);
      assert read + [rest[0]] + rest[1..] == read + rest;
    }
  }

  lemma {:induction false} ValueStays(cfg: Config, m: Machine, value: seq<byte>)
    requires InTrailerValue(cfg, m) && ValueOk(value) && m.f.nread + |value| <= cfg.maxHeader
    ensures Stays(cfg, m, value)
    ensures var r := Run(cfg, m, value); InTrailerValue(cfg, r) && r.f.nread == m.f.nread + |value|
    decreases |value|
  {
    hide MachineInv, Step;
    if value != [] {
      StepTrailerValue(cfg, m, value[0]);
      ValueStays(cfg, Step(cfg, m, value[0]), value[1..]);
    }
  }

  /** The value with the line end behind it. */
  lemma ValueLineStays(cfg: Config, m: Machine, value: seq<byte>)
    requires InTrailerValue(cfg, m) && ValueOk(value) && m.f.nread + |value| + 2 <= cfg.maxHeader
    ensures Stays(cfg, m, value + [CR, LF])
    ensures var r := Run(cfg, m, value + [CR, LF]); AtLine(cfg, r) && r.f.nread == m.f.nread + |value| + 2
  {
    hide MachineInv, Step;
    ValueStays(cfg, m, value);
    var r := Run(cfg, m, value);
    StepLineCR(cfg, r);
    var s := Step(cfg, r, CR);
    StepLineLF(cfg, s);
    TwoStay(cfg, r, CR, LF);
    StaysThen(cfg, m, value, [CR, LF]);
    RunConcat(cfg, m, value, [CR, LF]);
    RunTwo(cfg, r, CR, LF);
  }

  lemma TwoStay(cfg: Config, m: Machine, a: byte, b: byte)
    requires MachineInv(cfg, m) && !Stopped(m)
    requires var s := Step(cfg, m, a); !Stopped(s) && InHeaders(s.f.state)
    requires var s := Step(cfg, Step(cfg, m, a), b); !Stopped(s) && InHeaders(s.f.state)
    ensures Stays(cfg, m, [a, b])
  {
    hide MachineInv, Step, InHeaders;
    assert [a, b][1..] == [b] && [b][1..] == [];
    var s := Step(cfg, m, a);
    assert Stays(cfg, Step(cfg, s, b), []);
    assert Stays(cfg, s, [b]);
  }

  lemma OneStays(cfg: Config, m: Machine, a: byte, rest: seq<byte>)
    requires MachineInv(cfg, m) && !Stopped(m)
    requires var s := Step(cfg, m, a); !Stopped(s) && InHeaders(s.f.state) && Stays(cfg, s, rest)
    ensures Stays(cfg, m, [a] + rest) && Run(cfg, m, [a] + rest) == Run(cfg, Step(cfg, m, a), rest)
  {
    hide MachineInv, Step, InHeaders;
    assert ([a] + rest)[1..] == rest;
  }

  /** The name from its second byte on, and the value. */
  lemma RestStays(cfg: Config, m: Machine, l: Line)
    requires l.name != [] && InName(cfg, m, [l.name[0]]) && LineOk(l) && m.f.nread + |LineBytes(l)| - 1 <= cfg.maxHeader
    ensures Stays(cfg, m, l.name[1..] + ([58] + (l.value + [CR, LF])))
    ensures
      var r := Run(cfg, m, l.name[1..] + ([58] + (l.value + [CR, LF])));
      AtLine(cfg, r) && r.f.nread == m.f.nread + |LineBytes(l)| - 1
  {
    hide MachineInv, Step, NameRead, Token, LineBytes;
    var more, tail := l.name[1..], l.value + [CR, LF];
    assert |LineBytes(l)| == 1 + |more| + 1 + |tail| by { LineLength(l); }
    NameStays(cfg, m, [l.name[0]], more);
    var m2 := Run(cfg, m, more);
    assert [l.name[0]] + more == l.name;
    StepColon(cfg, m2, l.name);
    ValueLineStays(cfg, Step(cfg, m2, 58), l.value);
    OneStays(cfg, m2, 58, tail);
    StaysThen(cfg, m, more, [58] + tail);
    RunConcat(cfg, m, more, [58] + tail);
  }

  lemma LineLength(l: Line)
    requires l.name != []
    ensures |LineBytes(l)| == 1 + |l.name[1..]| + 1 + |l.value + [CR, LF]|
    ensures LineBytes(l) == [l.name[0]] + (l.name[1..] + ([58] + (l.value + [CR, LF])))
  {}

  /** A line is taken, and leaves the parser in front of the next. */
  lemma LineStays(cfg: Config, m: Machine, l: Line)
    requires AtLine(cfg, m) && LineOk(l) && m.f.nread + |LineBytes(l)| <= cfg.maxHeader
    ensures Stays(cfg, m, LineBytes(l))
    ensures var r := Run(cfg, m, LineBytes(l)); AtLine(cfg, r) && r.f.nread == m.f.nread + |LineBytes(l)|
  {
    hide MachineInv, Step, NameRead, Token, LineBytes;
    LineLength(l);
    StepNameStart(cfg, m, l.name[0]);
    var m1 := Step(cfg, m, l.name[0]);
    RestStays(cfg, m1, l);
    OneStays(cfg, m, l.name[0], l.name[1..] + ([58] + (l.value + [CR, LF])));
  }

  // ---- the whole section ----

  lemma EndLine(cfg: Config, m: Machine)
    requires AtLine(cfg, m) && m.f.nread + 2 <= cfg.maxHeader
    ensures TrailerSection(cfg, m, [CR, LF])
  {
    hide MachineInv, Step, OnHeaders;
    TrailerStep(cfg, m, CR);
    EndArm(cfg, m.f.(nread := m.f.nread + 1));
    var s := Step(cfg, m, CR);
    StepTrailerLF(cfg, s);
    assert [CR, LF][1..] == [LF];
  }

  lemma EndArm(cfg: Config, f: Fields)
    requires f.state.HeaderFieldStart? || f.state.HeaderValueLws?
        || (f.state == Discard(DiscardLws) && !f.hs.HContentLength?)
    requires Inv(f)
    ensures var a := OnHeaders(cfg, f, CR); a.f.errno.OK? && a.f.state.HeadersAlmostDone?
  {
    hide FirstHs, OnHeadersAlmostDone, Fits, NotesOk, IndexOk, LayerOk, LengthOk, TypeOk;
  }

  lemma {:induction false} LinesFit(cfg: Config, m: Machine, lines: seq<Line>)
    requires AtLine(cfg, m) && m.f.nread + |LinesBytes(lines)| <= cfg.maxHeader
    requires forall i | 0 <= i < |lines| :: LineOk(lines[i])
    ensures TrailerSection(cfg, m, LinesBytes(lines))
    decreases |lines|
  {
    hide LineOk, LineBytes, Step, MachineInv;
    if lines == [] {
      EndLine(cfg, m);
    } else {
      var l, rest := lines[0], LinesBytes(lines[1..]);
      LineStays(cfg, m, l);
      LinesFit(cfg, Run(cfg, m, LineBytes(l)), lines[1..]);
      StaysThen(cfg, m, LineBytes(l), rest);
    }
  }

  /**
    * Every trailer section of header lines without a Content-Length, within the header limit, is accepted behind
    * the last chunk, so that chunks, last chunk and trailer section are delivered as one message.
    */
  lemma ChunkedWithLines(cfg: Config, m: Machine, chunks: seq<Chunk>, last: Chunk, lines: seq<Line>)
    requires AtChunk(cfg, m) && forall i | 0 <= i < |chunks| :: ChunkOk(cfg, chunks[i]) && chunks[i].data != []
    requires ChunkOk(cfg, last) && last.data == []
    requires (forall i | 0 <= i < |lines| :: LineOk(lines[i])) && |LinesBytes(lines)| <= cfg.maxHeader
    ensures
      var r := Run(cfg, m, WireAll(chunks) + SizeLine(last) + LinesBytes(lines));
      && r.f.errno.OK? && r.f.state == NewMessage(r.f.v)
      && BodyBytes(r.log) == BodyBytes(m.log) + Payload(chunks)
      && Notified(r.log) == Notified(m.log) + ChunkNotes(|chunks|) + [ChunkHeader, ChunkComplete, MessageComplete]
  {
    hide Step, MachineInv, EventsOf, WireAll, NewMessage, BodyBytes, Notified, TrailerSection, LinesBytes, LineOk;
    RunChunks(cfg, m, chunks);
    var m1 := Run(cfg, m, WireAll(chunks));
    RunSizeLine(cfg, m1, last);
    RunConcat(cfg, m, WireAll(chunks), SizeLine(last));
    var m2 := Run(cfg, m, WireAll(chunks) + SizeLine(last));
    LinesFit(cfg, m2, lines);
    ChunkedWithTrailer(cfg, m, chunks, last, LinesBytes(lines));
  }
}
