/** How many Content-Length headers a message has when its headers are reported complete. */
module HttpOneLength {
  import opened Bytes
  import opened HttpTypes
  import opened HttpArms
  import opened HttpMachine
  import opened HttpBulk
  import opened HttpParser
  import opened HttpNames
  import opened HttpLength

  predicate IsLengthField(ev: Event) { IsData(ev, KField) && Lowered(ev.bytes) == CONTENT_LENGTH }

  /** The fields of the current message whose name is content-length. */
  function LengthFields(log: seq<Event>): nat {
    if log == [] then 0
    else
      var last := log[|log| - 1];
      if IsBegin(last) then 0 else LengthFields(log[..|log| - 1]) + if IsLengthField(last) then 1 else 0
  }

  function Bit(b: bool): nat { if b then 1 else 0 }

  /** Every report of complete headers has one such field if its flag is set, and none otherwise. */
  predicate ReportsCounted(log: seq<Event>) {
    forall j | 0 <= j < |log| && IsHeadersComplete(log[j]) ::
      LengthFields(log[..j]) == Bit(log[j].view.flags.contentLength)
  }

  // ---- adding events ----

  lemma CountOne(log: seq<Event>, ev: Event)
    ensures LengthFields(log + [ev])
         == if IsBegin(ev) then 0 else LengthFields(log) + if IsLengthField(ev) then 1 else 0
  {
    assert (log + [ev])[..|log|] == log;
  }

  /** Only names and the beginning of a message change the count. */
  lemma CountPush(log: seq<Event>, ev: Event)
    requires !IsData(ev, KField)
    ensures LengthFields(Push(log, ev)) == if IsBegin(ev) then 0 else LengthFields(log)
  {
    hide LengthFields;
    if ev.Data? && EndsIn(log, ev.kind) {
      var init, last := log[..|log| - 1], log[|log| - 1];
      assert log == init + [last];
      CountOne(init, last);
      CountOne(init, Data(ev.kind, last.bytes + ev.bytes));
    } else {
      CountOne(log, ev);
    }
  }

  /** A name under way is the last event. */
  lemma NamePush(log: seq<Event>, bytes: seq<byte>)
    ensures
      var l := Push(log, Data(KField, bytes));
      EndsIn(l, KField) && l[..|l| - 1] == if EndsIn(log, KField) then log[..|log| - 1] else log
  {
  }

  lemma ReportsPush(log: seq<Event>, ev: Event)
    requires ReportsCounted(log)
    requires IsHeadersComplete(ev) ==> LengthFields(log) == Bit(ev.view.flags.contentLength)
    ensures ReportsCounted(Push(log, ev))
  {
    hide LengthFields;
    var l := Push(log, ev);
    PushKeeps(log, ev);
    forall j | 0 <= j < |l| && IsHeadersComplete(l[j])
      ensures LengthFields(l[..j]) == Bit(l[j].view.flags.contentLength)
    {
      if ev.Data? && EndsIn(log, ev.kind) {
        assert j < |log| - 1 && l[..j] == log[..j];
      } else if j < |log| {
        assert l[..j] == log[..j];
      } else {
        assert l[..j] == log;
      }
    }
  }

  // ---- the invariant ----

  /** In a trailer section nothing is reported any more. */
  predicate HeadCount(f: Fields, log: seq<Event>) {
    if !InHeaders(f.state) then LengthFields(log) == 0 && !f.v.flags.contentLength
    else if f.v.flags.trailing then true
    else if InField(f.state) then log != [] && LengthFields(log[..|log| - 1]) == Bit(f.v.flags.contentLength)
    else LengthFields(log) == Bit(f.v.flags.contentLength)
  }

  ghost predicate OneInv(m: Machine) {
    && LengthInv(m) && ReportsCounted(m.log)
    && (m.f.errno.OK? && InHead(m.f.state) ==> HeadCount(m.f, m.log))
  }

  /** What a step has to show beside what is known of it already. */
  predicate CountInv(m: Machine) {
    ReportsCounted(m.log) && (m.f.errno.OK? && InHead(m.f.state) ==> HeadCount(m.f, m.log))
  }

  /** A name that is complete: it is counted if it is content-length. */
  lemma NameCounted(f: Fields, log: seq<Event>)
    requires InField(f.state) && HeadInv(f, log)
    ensures LengthFields(log) == LengthFields(log[..|log| - 1]) + Bit(f.hs.HContentLength?)
  {
    hide LengthFields, DeclaredIn, LengthKnown, NameHs, Lowered;
    var init, last := log[..|log| - 1], log[|log| - 1];
    assert log == init + [last];
    CountOne(init, last);
    NamesRecognised(Lowered(last.bytes));
  }

  // ---- names and values ----

  lemma CountInField(cfg: Config, m: Machine, ch: byte)
    requires MachineInv(cfg, m) && !Stopped(m) && m.f.state.HeaderField? && OneInv(m) && Step(cfg, m, ch).f.errno.OK?
    ensures CountInv(Step(cfg, m, ch))
  {
    hide Step, Inv, HeadInv, HeadersDeclared, LengthFields, ReportsCounted;
    InvField(m.f);
    if Token(ch) != 0 {
      StepField(cfg, m, ch);
      NameUnderWay(m.f, m.log);
      NamePush(m.log, [ch]);
      ReportsPush(m.log, Data(KField, [ch]));
    } else {
      BelowLimit(cfg, m, ch);
      StepFieldEnd(cfg, m, ch);
    }
  }

  lemma NameUnderWay(f: Fields, log: seq<Event>)
    requires InField(f.state) && HeadInv(f, log)
    ensures EndsIn(log, KField)
  {
  }

  lemma ValueKeepsFlags(f: Fields, ch: byte)
    requires f.state.HeaderValue? && ValueHs(f.hs) && f.v.contentLength < TWO_64
    ensures
      var g := ValueByte(f, ch);
      && g.state == f.state
      && g.v.flags.contentLength == f.v.flags.contentLength && g.v.flags.trailing == f.v.flags.trailing
  {
  }

  lemma CountInValue(cfg: Config, m: Machine, ch: byte)
    requires MachineInv(cfg, m) && !Stopped(m) && m.f.state.HeaderValue? && OneInv(m) && Step(cfg, m, ch).f.errno.OK?
    ensures CountInv(Step(cfg, m, ch))
  {
    hide Step, HeadInv, HeadersDeclared, LengthFields, ReportsCounted, ValueByte;
    ReadyValue(cfg, m);
    BelowLimit(cfg, m, ch);
    if ch != CR && ch != LF {
      StepValue(cfg, m, ch);
      ValueKeepsFlags(m.f, ch);
      CountPush(m.log, Data(KValue, [ch]));
      ReportsPush(m.log, Data(KValue, [ch]));
    } else {
      StepValueEnd(cfg, m, ch);
    }
  }

  /** The first byte of a value, or of its continuation: a length header sets the flag, which was not set. */
  lemma CountValueStart(f: Fields, hs: HeaderState, log: seq<Event>, ch: byte)
    requires f.state.Discard? || f.state.HeaderValueLws?
    requires Inv(f) && HeadInv(f, log) && HeadCount(f, log) && ReportsCounted(log)
    requires if f.state.Discard? then hs == f.hs else (ch == SP || ch == HT) && hs == Folded(f.hs)
    requires OnValueStart(f, hs, ch).f.errno.OK?
    ensures
      var l := Push(log, Data(KValue, [ch]));
      HeadCount(OnValueStart(f, hs, ch).f, l) && ReportsCounted(l)
  {
    hide HeadInv, LengthFields, ReportsCounted, ValueStartHs;
    CountPush(log, Data(KValue, [ch]));
    ReportsPush(log, Data(KValue, [ch]));
    if f.state.Discard? {
      NameCounted(f, log);
    } else {
      assert ValueHs(f.hs);
    }
  }

  // ---- the beginning and the end of a header ----

  predicate BetweenCount(v: View, log: seq<Event>) {
    && !EndsIn(log, KField) && ReportsCounted(log)
    && (!v.flags.trailing ==> LengthFields(log) == Bit(v.flags.contentLength))
  }

  /** At the end of a trailer section complete headers are not reported again. */
  predicate EndTrails(v: View, notes: Notes) {
    v.flags.trailing ==> !(notes.Once? && notes.note.HeadersComplete?) && !(notes.Twice? && notes.note.HeadersComplete?)
  }

  lemma HeadEndTrails(cfg: Config, f: Fields, ch: byte)
    requires (f.state.HeadersAlmostDone? || f.state.HeaderFieldStart?) && Inv(f)
    ensures var a := OnHeadersAlmostDone(cfg, f, ch); a.f.errno.OK? ==> EndTrails(f.v, a.e.notes)
  {
    hide Inv, OnHeadersDone, NewMessage;
  }

  lemma FieldStartEnd(cfg: Config, f: Fields, ch: byte)
    requires f.state.HeaderFieldStart? && Inv(f)
    ensures var a := OnFieldStart(cfg, f, ch); a.f.errno.OK? && !InHead(a.f.state) ==> EndTrails(f.v, a.e.notes)
  {
    HeadEndTrails(cfg, f, ch);
    hide Inv, OnHeadersAlmostDone, FirstHs;
  }

  lemma NotesCounted(v: View, log: seq<Event>, notes: Notes)
    requires BetweenCount(v, log) && EndOk(v, notes) && EndTrails(v, notes)
    ensures ReportsCounted(PushAll(log, NoteEvents(notes)))
  {
    hide LengthFields, ReportsCounted;
    match notes
    case Once(n, w) =>
      PushAllOne(log, Notify(n, w));
      ReportsPush(log, Notify(n, w));
    case Twice(n, w, o, x) =>
      PushAllTwo(log, Notify(n, w), Notify(o, x));
      ReportsPush(log, Notify(n, w));
      ReportsPush(Push(log, Notify(n, w)), Notify(o, x));
  }

  lemma CountFieldStart(f: Fields, log: seq<Event>, ch: byte, a: Arm, halted: bool)
    requires BetweenCount(f.v, log) && FieldStartOk(f, ch, a) && a.f.errno.OK?
    requires !InHead(a.f.state) ==> EndTrails(f.v, a.e.notes)
    ensures CountInv(Machine(a.f, Record(log, None, a.e, ch), halted))
  {
    hide LengthFields, ReportsCounted, Record, Token, FirstHs, EndOk, EndTrails;
    if a.f.state.HeaderField? {
      NamePush(log, [ch]);
      ReportsPush(log, Data(KField, [ch]));
      OpenRecord(log, a.e, ch);
    } else if !a.f.state.HeadersAlmostDone? {
      NotesCounted(f.v, log, a.e.notes);
      NotesRecord(log, a.e, ch);
    } else {
      NotesRecord(log, a.e, ch);
    }
  }

  lemma OpenRecord(log: seq<Event>, e: Effect, ch: byte)
    requires e == NONE.(open := Some(KField))
    ensures Record(log, None, e, ch) == Push(log, Data(KField, [ch]))
  {
  }

  lemma NotesRecord(log: seq<Event>, e: Effect, ch: byte)
    requires e == NONE.(notes := e.notes)
    ensures Record(log, None, e, ch) == PushAll(log, NoteEvents(e.notes))
    ensures e == NONE ==> Record(log, None, e, ch) == log
  {
  }

  lemma CountAtFieldStart(cfg: Config, m: Machine, ch: byte)
    requires MachineInv(cfg, m) && !Stopped(m) && m.f.state.HeaderFieldStart? && OneInv(m)
    requires Step(cfg, m, ch).f.errno.OK?
    ensures CountInv(Step(cfg, m, ch))
  {
    hide Step, Switch, Inv, OnFieldStart, HeadersDeclared, DeclaredIn, Record, FieldStartOk, ReportsCounted,
      LengthFields, CountInv;
    StepTaken(cfg, m, ch);
    var f := Counted(m.f);
    ArmOf(cfg, f, ch);
    var a := OnFieldStart(cfg, f, ch);
    FieldStarts(cfg, f, ch);
    FieldStartEnd(cfg, f, ch);
    CountFieldStart(f, m.log, ch, a, a.halt);
  }

  lemma CountAtHeadEnd(cfg: Config, m: Machine, ch: byte)
    requires MachineInv(cfg, m) && !Stopped(m) && m.f.state.HeadersAlmostDone? && OneInv(m)
    requires Step(cfg, m, ch).f.errno.OK?
    ensures CountInv(Step(cfg, m, ch))
  {
    hide Step, Switch, Inv, OnHeadersAlmostDone, HeadersDeclared, DeclaredIn, ReportsCounted, LengthFields;
    StepTaken(cfg, m, ch);
    var f := Counted(m.f);
    ArmOf(cfg, f, ch);
    var a := OnHeadersAlmostDone(cfg, f, ch);
    HeadEnds(cfg, f, ch);
    HeadEndTrails(cfg, f, ch);
    NotesCounted(f.v, m.log, a.e.notes);
    assert Record(m.log, None, a.e, ch) == PushAll(m.log, NoteEvents(a.e.notes));
  }

  /** The byte behind a header that is over, on the log of that header. */
  lemma CountNextLine(cfg: Config, f: Fields, log: seq<Event>, ch: byte, halted: bool)
    requires (f.state.Discard? && !f.hs.HContentLength?) || f.state.HeaderValueLws?
    requires Inv(f) && HeadInv(f, log) && HeadCount(f, log) && ReportsCounted(log)
    ensures
      var a := OnFieldStart(cfg, HeaderDone(f), ch);
      var l := if f.state.Discard? then Push(log, Data(KValue, [])) else log;
      a.f.errno.OK? ==> CountInv(Machine(a.f, Record(l, None, a.e, ch), halted))
  {
    hide ReportsCounted, LengthFields, Record, OnFieldStart, FieldStartOk, HeaderDone, CountInv, DeclaredIn, NameRead;
    var g := HeaderDone(f);
    var l := if f.state.Discard? then Push(log, Data(KValue, [])) else log;
    if f.state.Discard? {
      NameCounted(f, log);
      CountPush(log, Data(KValue, []));
      ReportsPush(log, Data(KValue, []));
      PushKeeps(log, Data(KValue, []));
    }
    DoneKeepsFlags(f);
    FieldStarts(cfg, g, ch);
    FieldStartEnd(cfg, g, ch);
    var a := OnFieldStart(cfg, g, ch);
    if a.f.errno.OK? { CountFieldStart(g, l, ch, a, halted); }
  }

  lemma DoneKeepsFlags(f: Fields)
    requires Inv(f) && (InValue(f.state) || f.state.Discard?)
    ensures
      var g := HeaderDone(f);
      g.v.flags.contentLength == f.v.flags.contentLength && g.v.flags.trailing == f.v.flags.trailing
  {
    hide Inv, SetFlag;
    FlagKeepsLength(f.v.flags, f.hs);
  }

  lemma CountInDiscard(cfg: Config, m: Machine, ch: byte)
    requires MachineInv(cfg, m) && !Stopped(m) && m.f.state.Discard? && OneInv(m) && Step(cfg, m, ch).f.errno.OK?
    ensures CountInv(Step(cfg, m, ch))
  {
    hide Step, Switch, Inv, OnFieldStart, OnValueStart, HeadersDeclared, DeclaredIn, HeadInv, HeaderDone,
      ReportsCounted, LengthFields;
    StepTaken(cfg, m, ch);
    var f := Counted(m.f);
    CounterOnly(m.f, f.nread, m.log);
    ArmOf(cfg, f, ch);
    var a := OnDiscard(cfg, f, ch);
    if f.state.d.DiscardWs? && !(ch == SP || ch == HT || ch == CR || ch == LF) {
      CountValueStart(f, f.hs, m.log, ch);
    } else if f.state.d.DiscardLws? && !(ch == SP || ch == HT) {
      CountNextLine(cfg, f, m.log, ch, a.halt);
    }
  }

  lemma CountBehindValue(cfg: Config, m: Machine, ch: byte)
    requires MachineInv(cfg, m) && !Stopped(m) && (m.f.state.HeaderAlmostDone? || m.f.state.HeaderValueLws?)
    requires OneInv(m) && Step(cfg, m, ch).f.errno.OK?
    ensures CountInv(Step(cfg, m, ch))
  {
    hide Step, Switch, Inv, OnFieldStart, OnValueStart, HeadersDeclared, DeclaredIn, HeadInv, HeaderDone, Good,
      Notices, Push, ReportsCounted, LengthFields;
    StepTaken(cfg, m, ch);
    var f := Counted(m.f);
    CounterOnly(m.f, f.nread, m.log);
    ArmOf(cfg, f, ch);
    var a := OnAfterValue(cfg, f, ch);
    if f.state.HeaderAlmostDone? {
    } else if ch == SP || ch == HT {
      CountValueStart(f, Folded(f.hs), m.log, ch);
    } else {
      CountNextLine(cfg, f, m.log, ch, a.halt);
    }
  }

  // ---- the first line, bodies ----

  lemma CountAtStart(cfg: Config, m: Machine, ch: byte)
    requires MachineInv(cfg, m) && !Stopped(m) && OneInv(m) && Step(cfg, m, ch).f.errno.OK? && Starting(m.f.state)
    ensures CountInv(Step(cfg, m, ch))
  {
    hide Step, Switch, Inv, OnStartLine, HeadersDeclared, DeclaredIn, Good, NameRead, Push, ReportsCounted,
      LengthFields;
    StepTaken(cfg, m, ch);
    var f := Counted(m.f);
    ArmOf(cfg, f, ch);
    var a := OnStartLine(f, ch);
    StartFirstLine(f, ch);
    if a.e.notes.Once? {
      var ev := Notify(a.e.notes.note, a.e.notes.view);
      PushAllOne(m.log, ev);
      ReportsPush(m.log, ev);
      CountPush(m.log, ev);
    }
  }

  lemma CountInFirstLine(cfg: Config, m: Machine, ch: byte)
    requires MachineInv(cfg, m) && !Stopped(m) && OneInv(m) && Step(cfg, m, ch).f.errno.OK?
    requires InHead(m.f.state) && !InHeaders(m.f.state)
    ensures CountInv(Step(cfg, m, ch))
  {
    hide Step, Switch, Inv, OnStartLine, HeadersDeclared, DeclaredIn, Good, NameRead, Record, ReportsCounted,
      LengthFields;
    StepTaken(cfg, m, ch);
    var f := Counted(m.f);
    ArmOf(cfg, f, ch);
    var a := OnStartLine(f, ch);
    FirstLineArm(f, ch);
    FirstLineCount(m.log, LiveOf(m.f.state), a.e, ch);
  }

  lemma FirstLineCount(log: seq<Event>, live: Option<Kind>, e: Effect, ch: byte)
    requires ReportsCounted(log) && live != Some(KField)
    requires e.notes.Silent? && !e.body && e.empty != Some(KField) && e.open != Some(KField)
    ensures var l := Record(log, live, e, ch); ReportsCounted(l) && LengthFields(l) == LengthFields(log)
  {
    hide ReportsCounted, LengthFields, Push;
    var l1 := if e.empty.Some? then Push(log, Data(e.empty.value, [])) else log;
    if e.empty.Some? {
      ReportsPush(log, Data(e.empty.value, []));
      CountPush(log, Data(e.empty.value, []));
    }
    if e.open.Some? {
      ReportsPush(l1, Data(e.open.value, [ch]));
      CountPush(l1, Data(e.open.value, [ch]));
    } else if live.Some? && e.close.None? {
      ReportsPush(l1, Data(live.value, [ch]));
      CountPush(l1, Data(live.value, [ch]));
    }
  }

  /** Only a trailer section follows a body inside a message. */
  predicate Trailing(f: Fields) { f.errno.OK? && InHead(f.state) ==> InHeaders(f.state) && f.v.flags.trailing }

  lemma LineTrails(f: Fields, ch: byte)
    requires InChunkLine(f.state) && Inv(f) && (f.state.ChunkSizeStart? ==> f.nread == 1)
    ensures Trailing(OnChunkLine(f, ch).f)
  {
    hide NotesOk, Fits, IndexOk, LayerOk, TypeOk, LengthOk, Unhex;
  }

  lemma ContentTrails(f: Fields, ch: byte)
    requires (f.state.ChunkData? || f.state.ChunkDataAlmostDone? || f.state.ChunkDataDone?) && Inv(f)
    ensures Trailing(OnChunkContent(f, ch).f)
  {
    hide NotesOk, Fits, IndexOk, LayerOk, TypeOk, LengthOk;
  }

  lemma IdentityTrails(f: Fields, ch: byte)
    requires (f.state.BodyIdentity? || f.state.BodyIdentityEof?) && Inv(f)
    ensures Trailing(OnIdentity(f, ch).f)
  {
    hide NotesOk, Fits, IndexOk, LayerOk, TypeOk, LengthOk;
  }

  lemma TrailerBegins(cfg: Config, f: Fields, ch: byte)
    requires InBody(f.state) && Inv(f) && (f.state.ChunkSizeStart? ==> f.nread == 1)
    ensures Trailing(Switch(cfg, f, ch).f)
  {
    hide Inv, Good, OnChunkLine, OnChunkContent, OnIdentity, Trailing;
    if InChunkLine(f.state) { LineTrails(f, ch); }
    else if InChunk(f.state) { ContentTrails(f, ch); }
    else { IdentityTrails(f, ch); }
  }

  lemma CountInBody(cfg: Config, m: Machine, ch: byte)
    requires MachineInv(cfg, m) && !Stopped(m) && InBody(m.f.state) && OneInv(m) && Step(cfg, m, ch).f.errno.OK?
    ensures CountInv(Step(cfg, m, ch))
  {
    hide Step, Inv, Switch, HeadersDeclared, DeclaredIn, Good, NameRead, Record, ReportsCounted, LengthFields;
    StepTaken(cfg, m, ch);
    var f := Counted(m.f);
    var a := Switch(cfg, f, ch);
    BodyArm(cfg, f, ch);
    TrailerBegins(cfg, f, ch);
    BodyCount(m.log, LiveOf(m.f.state), a.e, ch);
  }

  lemma BodyCount(log: seq<Event>, live: Option<Kind>, e: Effect, ch: byte)
    requires ReportsCounted(log) && live.None? && !e.notes.Twice?
    requires e == NONE.(body := e.body, close := e.close, notes := e.notes)
    requires e.notes.Once? ==> !e.notes.note.HeadersComplete?
    ensures ReportsCounted(Record(log, live, e, ch))
  {
    hide ReportsCounted;
    var l2 := if e.body then Push(log, Data(KBody, [ch])) else log;
    if e.body { ReportsPush(log, Data(KBody, [ch])); }
    if e.notes.Once? {
      var ev := Notify(e.notes.note, e.notes.view);
      PushAllOne(l2, ev);
      ReportsPush(l2, ev);
    }
  }

  // ---- any byte, any run ----

  lemma StepCounts(cfg: Config, m: Machine, ch: byte)
    requires MachineInv(cfg, m) && !Stopped(m) && OneInv(m)
    ensures OneInv(Step(cfg, m, ch))
  {
    StepLength(cfg, m, ch);
    if Step(cfg, m, ch).f.errno.OK? {
      hide Inv, HeadInv, HeadCount, Step, ReportsCounted, HeadersDeclared;
      if m.f.state.HeaderField? { CountInField(cfg, m, ch); }
      else if m.f.state.HeaderValue? { CountInValue(cfg, m, ch); }
      else if m.f.state.HeaderFieldStart? { CountAtFieldStart(cfg, m, ch); }
      else if m.f.state.Discard? { CountInDiscard(cfg, m, ch); }
      else if m.f.state.HeaderAlmostDone? || m.f.state.HeaderValueLws? { CountBehindValue(cfg, m, ch); }
      else if m.f.state.HeadersAlmostDone? { CountAtHeadEnd(cfg, m, ch); }
      else if InBody(m.f.state) { CountInBody(cfg, m, ch); }
      else if Starting(m.f.state) { CountAtStart(cfg, m, ch); }
      else { CountInFirstLine(cfg, m, ch); }
    } else {
      FailsCounted(cfg, m, ch);
    }
  }

  lemma FailsCounted(cfg: Config, m: Machine, ch: byte)
    requires MachineInv(cfg, m) && !Stopped(m) && OneInv(m) && !Step(cfg, m, ch).f.errno.OK?
    ensures ReportsCounted(Step(cfg, m, ch).log)
  {
    hide Inv, Switch, HeadersDeclared, HeadInv, Record, ReportsCounted;
    CountedKeeps(m.f);
    var f := Counted(m.f);
    if f.nread <= cfg.maxHeader {
      var a := Switch(cfg, f, ch);
      if a.e.empty.Some? { ReportsPush(m.log, Data(a.e.empty.value, [])); }
    }
  }

  lemma {:induction false} RunCounts(cfg: Config, m: Machine, data: seq<byte>)
    requires MachineInv(cfg, m) && OneInv(m)
    ensures OneInv(Run(cfg, m, data))
    decreases |data|
  {
    hide MachineInv, Step, OneInv;
    if data != [] && !Stopped(m) {
      StepCounts(cfg, m, data[0]);
      RunCounts(cfg, Step(cfg, m, data[0]), data[1..]);
    }
  }

  /**
    * In every run from a new parser, when headers are reported complete the message has exactly one field named
    * content-length, in any case, if its record has a length, and none otherwise.
    */
  lemma OneLength(cfg: Config, t: ParserType, data: seq<byte>)
    ensures ReportsCounted(Run(cfg, Fresh(cfg, t), data).log)
  {
    hide MachineInv, Run, HeadersDeclared, HeadInv;
    FreshLength(cfg, t);
    RunCounts(cfg, Fresh(cfg, t), data);
  }
}
