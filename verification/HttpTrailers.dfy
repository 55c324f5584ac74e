/** Trailer sections: header lines after the last chunk, which end the message and deliver nothing but header data. */
module HttpTrailers {
  import opened Bytes
  import opened HttpTypes
  import opened HttpArms
  import opened HttpMachine
  import opened HttpBodies

  /** An arm stays in the trailer section, or ends it and the message. */
  predicate Trails(a: Arm) {
    a.f.errno.OK? ==>
      || (a.e.notes.Silent? && InHeaders(a.f.state) && a.f.v.flags.trailing)
      || (a.e.notes.Twice? && a.e.notes.note.ChunkComplete? && a.e.notes.note2.MessageComplete?
        && a.f.state == NewMessage(a.f.v))
  }

  lemma DoneTrails(cfg: Config, f: Fields, ch: byte)
    requires (f.state.HeadersAlmostDone? || f.state.HeaderFieldStart?) && Inv(f) && f.v.flags.trailing
    ensures Trails(OnHeadersAlmostDone(cfg, f, ch))
  {
    hide OnHeadersDone, Inv, NewMessage;
  }

  lemma FieldStartTrails(cfg: Config, f: Fields, ch: byte)
    requires f.state.HeaderFieldStart? && Inv(f) && f.v.flags.trailing
    ensures Trails(OnFieldStart(cfg, f, ch))
  {
    DoneTrails(cfg, f, ch);
    hide OnHeadersAlmostDone, Inv, FirstHs, NewMessage;
  }

  lemma FieldTrails(f: Fields, ch: byte)
    requires f.state.HeaderField? && Inv(f) && f.v.flags.trailing
    ensures Trails(OnField(f, ch))
  {
    hide Inv, NewMessage;
  }

  lemma ValueTrails(f: Fields, ch: byte)
    requires f.state.HeaderValue? && Inv(f) && f.v.flags.trailing
    ensures Trails(OnValue(f, ch))
  {
    hide NewMessage, MatchLength, MatchToken;
  }

  lemma ValueStartTrails(f: Fields, hs: HeaderState, ch: byte)
    requires (f.state.Discard? || f.state.HeaderValueLws?) && Inv(f) && f.v.flags.trailing
    requires hs.HContentLengthWs? ==> f.v.flags.contentLength
    ensures Trails(OnValueStart(f, hs, ch))
  {
    hide Inv, NewMessage, ValueStartHs;
  }

  lemma DiscardEndTrails(cfg: Config, f: Fields, ch: byte)
    requires f.state.Discard? && Inv(f) && f.v.flags.trailing
    ensures Trails(OnDiscardEnd(cfg, f, ch))
  {
    assert HeaderDone(f).v.flags.trailing;
    hide HeaderDone, OnFieldStart, Inv, NewMessage;
    FieldStartTrails(cfg, HeaderDone(f), ch);
  }

  lemma ValueEndTrails(cfg: Config, f: Fields, ch: byte)
    requires f.state.HeaderValueLws? && Inv(f) && f.v.flags.trailing
    ensures Trails(OnValueEnd(cfg, f, ch))
  {
    assert HeaderDone(f).v.flags.trailing;
    hide HeaderDone, OnFieldStart, Inv, NewMessage;
    FieldStartTrails(cfg, HeaderDone(f), ch);
  }

  lemma DiscardTrails(cfg: Config, f: Fields, ch: byte)
    requires f.state.Discard? && Inv(f) && f.v.flags.trailing
    ensures Trails(OnDiscard(cfg, f, ch))
  {
    assert f.hs.HContentLengthWs? ==> f.v.flags.contentLength;
    hide OnValueStart, OnDiscardEnd, Inv, NewMessage;
    ValueStartTrails(f, f.hs, ch);
    DiscardEndTrails(cfg, f, ch);
  }

  lemma AfterValueTrails(cfg: Config, f: Fields, ch: byte)
    requires (f.state.HeaderAlmostDone? || f.state.HeaderValueLws?) && Inv(f) && f.v.flags.trailing
    ensures Trails(OnAfterValue(cfg, f, ch))
  {
    var hs := if f.hs.HContentLengthNum? then HContentLengthWs else f.hs;
    assert hs.HContentLengthWs? ==> f.v.flags.contentLength;
    hide OnValueStart, OnValueEnd, Inv, NewMessage;
    if f.state.HeaderValueLws? {
      ValueStartTrails(f, hs, ch);
      ValueEndTrails(cfg, f, ch);
    }
  }

  lemma HeadersTrail(cfg: Config, f: Fields, ch: byte)
    requires InHeaders(f.state) && Inv(f) && f.v.flags.trailing
    ensures Trails(OnHeaders(cfg, f, ch))
  {
    hide Inv, Trails, OnFieldStart, OnField, OnValue, OnHeadersAlmostDone, OnDiscard, OnAfterValue;
    if f.state.HeaderFieldStart? { FieldStartTrails(cfg, f, ch); }
    else if f.state.HeaderField? { FieldTrails(f, ch); }
    else if f.state.HeaderValue? { ValueTrails(f, ch); }
    else if f.state.HeadersAlmostDone? { DoneTrails(cfg, f, ch); }
    else if f.state.Discard? { DiscardTrails(cfg, f, ch); }
    else { AfterValueTrails(cfg, f, ch); }
  }

  // ---- what is observed ----

  /** The kinds of the notifications among some events, in order. */
  function Notified(log: seq<Event>): seq<Note> {
    AllNotify(log);
    var notices := Notices(log);
    seq(|notices|, i requires 0 <= i < |notices| && notices[i].Notify? => notices[i].note)
  }

  lemma {:induction false} AllNotify(log: seq<Event>)
    ensures forall i | 0 <= i < |Notices(log)| :: Notices(log)[i].Notify?
    decreases |log|
  {
    if log != [] { AllNotify(log[..|log| - 1]); }
  }

  lemma AddedOne(log: seq<Event>, e: Event)
    ensures Notified(log + [e]) == Notified(log) + (if e.Notify? then [e.note] else [])
    ensures BodyBytes(log + [e]) == BodyBytes(log) + (if e.Data? && e.kind.KBody? then e.bytes else [])
  {
    hide Notices;
    assert (log + [e])[..|log|] == log;
    NoticesOne(log, e);
  }

  lemma QuietPush(log: seq<Event>, e: Event)
    requires e.Data? && !e.kind.KBody?
    ensures Notified(Push(log, e)) == Notified(log) && BodyBytes(Push(log, e)) == BodyBytes(log)
  {
    if EndsIn(log, e.kind) {
      var init := log[..|log| - 1];
      assert log == init + [log[|log| - 1]];
      AddedOne(init, log[|log| - 1]);
      AddedOne(init, Data(e.kind, log[|log| - 1].bytes + e.bytes));
    } else {
      AddedOne(log, e);
    }
  }

  lemma PushNotify(log: seq<Event>, e: Event)
    requires e.Notify?
    ensures Push(log, e) == log + [e]
  {
  }

  /** What one byte of a trailer section adds to the log. */
  lemma TrailerRecord(log: seq<Event>, s: State, a: Arm, f: Fields, ch: byte)
    requires f.state == s && InHeaders(s) && Good(f, a) && Trails(a) && a.f.errno.OK?
    ensures
      var l := Record(log, LiveOf(s), a.e, ch);
      && BodyBytes(l) == BodyBytes(log)
      && Notified(l) == Notified(log) + if a.e.notes.Silent? then [] else [ChunkComplete, MessageComplete]
  {
    hide Inv, NewMessage, NotesOk, BodyBytes, Notified, Push;
    var l1 := if a.e.empty.Some? then Push(log, Data(a.e.empty.value, [])) else log;
    if a.e.empty.Some? { QuietPush(log, Data(a.e.empty.value, [])); }
    var l3 := PushAll(l1, NoteEvents(a.e.notes));
    if a.e.notes.Twice? {
      var x, y := Notify(a.e.notes.note, a.e.notes.view), Notify(a.e.notes.note2, a.e.notes.view2);
      PushAllTwo(l1, x, y);
      PushNotify(l1, x);
      PushNotify(l1 + [x], y);
      AddedOne(l1, x);
      AddedOne(l1 + [x], y);
    }
    if a.e.open.Some? { QuietPush(l3, Data(a.e.open.value, [ch])); }
    else if LiveOf(s).Some? && a.e.close.None? { QuietPush(l3, Data(LiveOf(s).value, [ch])); }
  }

  // ---- whole trailer sections ----

  /** The bytes are exactly one trailer section that the parser accepts. */
  predicate TrailerSection(cfg: Config, m: Machine, t: seq<byte>)
    requires MachineInv(cfg, m) && m.f.errno.OK?
    decreases |t|
  {
    t != [] && var s := Step(cfg, m, t[0]);
    && s.f.errno.OK?
    && if |t| == 1 then !InHeaders(s.f.state)
       else !s.halted && InHeaders(s.f.state) && TrailerSection(cfg, s, t[1..])
  }

  lemma StepTrails(cfg: Config, m: Machine, ch: byte)
    requires MachineInv(cfg, m) && !Stopped(m) && InHeaders(m.f.state) && m.f.v.flags.trailing
    requires Step(cfg, m, ch).f.errno.OK?
    ensures
      var s := Step(cfg, m, ch);
      && BodyBytes(s.log) == BodyBytes(m.log)
      && if InHeaders(s.f.state) then s.f.v.flags.trailing && Notified(s.log) == Notified(m.log)
         else s.f.state == NewMessage(s.f.v) && Notified(s.log) == Notified(m.log) + [ChunkComplete, MessageComplete]
  {
    hide Inv, Record, Good, BodyBytes, Notified, OnHeaders;
    CountedKeeps(m.f);
    var f := Counted(m.f);
    var a := Switch(cfg, f, ch);
    assert a == OnHeaders(cfg, f, ch);
    HeadersTrail(cfg, f, ch);
    TrailerRecord(m.log, f.state, a, f, ch);
  }

  /** A trailer section delivers no body, and ends the last chunk and the message. */
  lemma {:induction false} RunTrailer(cfg: Config, m: Machine, t: seq<byte>)
    requires MachineInv(cfg, m) && !Stopped(m) && InHeaders(m.f.state) && m.f.v.flags.trailing
    requires TrailerSection(cfg, m, t)
    ensures
      var r := Run(cfg, m, t);
      && r.f.errno.OK? && r.f.state == NewMessage(r.f.v)
      && BodyBytes(r.log) == BodyBytes(m.log)
      && Notified(r.log) == Notified(m.log) + [ChunkComplete, MessageComplete]
    decreases |t|
  {
    hide Step, MachineInv, NewMessage, BodyBytes, Notified, InHeaders;
    StepTrails(cfg, m, t[0]);
    var s := Step(cfg, m, t[0]);
    if |t| == 1 {
      assert t[1..] == [];
    } else {
      RunTrailer(cfg, s, t[1..]);
    }
  }

  // ---- a chunked body with any trailer section ----

  lemma {:induction false} Added(log: seq<Event>, more: seq<Event>)
    ensures Notified(log + more) == Notified(log) + Notified(more)
    ensures BodyBytes(log + more) == BodyBytes(log) + BodyBytes(more)
    decreases |more|
  {
    if more == [] {
      assert log + more == log;
    } else {
      var init, last := more[..|more| - 1], more[|more| - 1];
      assert more == init + [last] && log + more == log + init + [last];
      Added(log, init);
      AddedOne(log + init, last);
      AddedOne(init, last);
      hide Notified, BodyBytes;
    }
  }

  function ChunkNotes(n: nat): seq<Note> {
    if n == 0 then [] else ChunkNotes(n - 1) + [ChunkHeader, ChunkComplete]
  }

  lemma {:induction false} ChunksNotified(chunks: seq<Chunk>, v: View)
    ensures Notified(EventsOf(chunks, v)) == ChunkNotes(|chunks|)
    decreases |chunks|
  {
    if chunks != [] {
      var init, last := chunks[..|chunks| - 1], chunks[|chunks| - 1];
      ChunksNotified(init, v);
      var e := ChunkEvents(last, v);
      Added(EventsOf(init, v), e);
      assert e == [] + [e[0]] + [e[1]] + [e[2]];
      AddedOne([], e[0]);
      AddedOne([] + [e[0]], e[1]);
      AddedOne([] + [e[0]] + [e[1]], e[2]);
      assert Notified([]) == [] by { assert Notices([]) == []; }
    }
  }

  /**
    * Chunked coding with a trailer section: the body is the concatenation of the chunks; every chunk, and the last
    * one of size zero, has one chunk-header and one chunk-complete notification; and there is a single
    * message-complete.
    */
  lemma ChunkedWithTrailer(cfg: Config, m: Machine, chunks: seq<Chunk>, last: Chunk, trailer: seq<byte>)
    requires AtChunk(cfg, m) && forall i | 0 <= i < |chunks| :: ChunkOk(cfg, chunks[i]) && chunks[i].data != []
    requires ChunkOk(cfg, last) && last.data == []
    requires
      var m2 := Run(cfg, m, WireAll(chunks) + SizeLine(last));
      m2.f.errno.OK? ==> TrailerSection(cfg, m2, trailer)
    ensures
      var r := Run(cfg, m, WireAll(chunks) + SizeLine(last) + trailer);
      && r.f.errno.OK? && r.f.state == NewMessage(r.f.v)
      && BodyBytes(r.log) == BodyBytes(m.log) + Payload(chunks)
      && Notified(r.log) == Notified(m.log) + ChunkNotes(|chunks|) + [ChunkHeader, ChunkComplete, MessageComplete]
  {
    hide Step, MachineInv, EventsOf, WireAll, NewMessage, BodyBytes, Notified, TrailerSection;
    RunChunks(cfg, m, chunks);
    var m1 := Run(cfg, m, WireAll(chunks));
    RunSizeLine(cfg, m1, last);
    RunConcat(cfg, m, WireAll(chunks), SizeLine(last));
    var m2 := Run(cfg, m, WireAll(chunks) + SizeLine(last));
    RunConcat(cfg, m, WireAll(chunks) + SizeLine(last), trailer);
    RunTrailer(cfg, m2, trailer);
    var e := Notify(ChunkHeader, SizedView(m1.f.v, 0));
    PushNotify(m1.log, e);
    AddedOne(m1.log, e);
    Added(m.log, EventsOf(chunks, m.f.v));
    ChunksNotified(chunks, m.f.v);
    PayloadDelivered(chunks, m.f.v);
    assert Notified(m.log) + ChunkNotes(|chunks|) + [ChunkHeader] + [ChunkComplete, MessageComplete]
        == Notified(m.log) + ChunkNotes(|chunks|) + [ChunkHeader, ChunkComplete, MessageComplete];
  }

  /** The empty trailer section is one of them. */
  lemma EmptyTrailer(cfg: Config, m: Machine)
    requires MachineInv(cfg, m) && !Stopped(m) && m.f.state.HeaderFieldStart? && m.f.v.flags.trailing
    requires m.f.nread + 2 <= cfg.maxHeader
    ensures TrailerSection(cfg, m, [CR, LF])
  {
    hide Step, MachineInv;
    StepTrailerCR(cfg, m);
    StepTrailerLF(cfg, Step(cfg, m, CR));
    assert [CR, LF][1..] == [LF];
  }
}
