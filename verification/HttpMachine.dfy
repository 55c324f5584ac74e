/**
  * The one-byte machine: `Step` is what the parser does with a single byte, `Run` with a stream.  Its log is the log
  * of callbacks with adjacent data events of one kind joined, so it does not depend on where a data callback was cut.
  */
module HttpMachine {
  import opened Bytes
  import opened HttpTypes
  import opened HttpArms

  // ---- joined logs ----

  /** Append an event; a run of bytes is joined to a run of the same kind just before it. */
  function Push(log: seq<Event>, ev: Event): (r: seq<Event>)
    ensures r != []
    ensures ev.Data? ==> EndsIn(r, ev.kind)
  {
    if ev.Data? && EndsIn(log, ev.kind)
    then log[..|log| - 1] + [Data(ev.kind, log[|log| - 1].bytes + ev.bytes)]
    else log + [ev]
  }

  predicate EndsIn(log: seq<Event>, k: Kind) {
    log != [] && log[|log| - 1].Data? && log[|log| - 1].kind == k
  }

  /** Append several events. */
  function PushAll(log: seq<Event>, evs: seq<Event>): seq<Event>
    decreases |evs|
  {
    if evs == [] then log else Push(PushAll(log, evs[..|evs| - 1]), evs[|evs| - 1])
  }

  /** The log with adjacent data events of one kind joined. */
  function Joined(evs: seq<Event>): seq<Event> { PushAll([], evs) }

  lemma {:induction false} PushAllConcat(log: seq<Event>, a: seq<Event>, b: seq<Event>)
    ensures PushAll(log, a + b) == PushAll(PushAll(log, a), b)
    decreases |b|
  {
    if b == [] {
      assert a + b == a;
    } else {
      assert (a + b)[..|a + b| - 1] == a + b[..|b| - 1];
      PushAllConcat(log, a, b[..|b| - 1]);
    }
  }

  lemma PushAllOne(log: seq<Event>, ev: Event)
    ensures PushAll(log, [ev]) == Push(log, ev)
  {
    assert [ev][..0] == [];
  }

  lemma PushAllTwo(log: seq<Event>, a: Event, b: Event)
    ensures PushAll(log, [a, b]) == Push(Push(log, a), b)
  {
    assert [a, b][..1] == [a];
    PushAllOne(log, a);
  }

  /** A run of bytes may be delivered in two pieces. */
  lemma PushSplit(log: seq<Event>, k: Kind, x: seq<byte>, y: seq<byte>)
    ensures Push(Push(log, Data(k, x)), Data(k, y)) == Push(log, Data(k, x + y))
  {
    if EndsIn(log, k) {
      var z := log[|log| - 1].bytes;
      assert z + x + y == z + (x + y);
    }
  }

  /** An empty run adds nothing to a log that ends in its kind. */
  lemma PushNothing(log: seq<Event>, k: Kind)
    requires EndsIn(log, k)
    ensures Push(log, Data(k, [])) == log
  {
    var last := log[|log| - 1];
    assert last.bytes + [] == last.bytes;
    assert log == log[..|log| - 1] + [last];
  }

  // ---- notifications ----

  predicate IsBegin(ev: Event) { ev.Notify? && ev.note.MessageBegin? }

  predicate IsHeadersComplete(ev: Event) { ev.Notify? && ev.note.HeadersComplete? }

  /** The notifications among some events, in order. */
  function Notices(log: seq<Event>): seq<Event> {
    if log == [] then []
    else Notices(log[..|log| - 1]) + if log[|log| - 1].Notify? then [log[|log| - 1]] else []
  }

  lemma NoticesOne(log: seq<Event>, ev: Event)
    ensures Notices(log + [ev]) == Notices(log) + if ev.Notify? then [ev] else []
  {
    assert (log + [ev])[..|log|] == log;
  }

  /** Joining data events does not touch notifications. */
  lemma NoticesPush(log: seq<Event>, ev: Event)
    ensures Notices(Push(log, ev)) == Notices(log) + if ev.Notify? then [ev] else []
  {
    if ev.Data? && EndsIn(log, ev.kind) {
      var init, last := log[..|log| - 1], log[|log| - 1];
      assert log == init + [last];
      NoticesOne(init, last);
      NoticesOne(init, Data(ev.kind, last.bytes + ev.bytes));
    } else {
      NoticesOne(log, ev);
    }
  }

  lemma {:induction false} NoticesPushAll(log: seq<Event>, evs: seq<Event>)
    ensures Notices(PushAll(log, evs)) == Notices(log) + Notices(evs)
    decreases |evs|
  {
    hide Push;
    if evs != [] {
      var init, last := evs[..|evs| - 1], evs[|evs| - 1];
      NoticesPushAll(log, init);
      NoticesPush(PushAll(log, init), last);
      assert evs == init + [last];
    }
  }

  // ---- one byte ----

  /** The log after one byte whose arm has effect `e`; `live` is the mark that was live before it. */
  function Record(log: seq<Event>, live: Option<Kind>, e: Effect, ch: byte): seq<Event> {
    var l1 := if e.empty.Some? then Push(log, Data(e.empty.value, [])) else log;
    var l2 := if e.body then Push(l1, Data(KBody, [ch])) else l1;
    var l3 := PushAll(l2, NoteEvents(e.notes));
    if e.open.Some? then Push(l3, Data(e.open.value, [ch]))
    else if live.Some? && e.close.None? then Push(l3, Data(live.value, [ch]))
    else l3
  }

  /** The log after a byte that is refused: of all callbacks only that of an empty value can have been made. */
  function Refused(log: seq<Event>, e: Effect): seq<Event> {
    if e.empty.Some? then Push(log, Data(e.empty.value, [])) else log
  }

  /** A state with a live mark follows a byte that was handed to that mark's callback. */
  predicate Tail(s: State, log: seq<Event>) {
    && (LiveOf(s).Some? ==> EndsIn(log, LiveOf(s).value))
    && (s.ChunkDataAlmostDone? ==> EndsIn(log, KBody))
  }

  predicate MachineInv(cfg: Config, m: Machine) {
    m.f.errno.OK? ==> Inv(m.f) && Budget(cfg, m.f) && Tail(m.f.state, m.log)
  }

  /** `COUNT_HEADER_SIZE(1)` at the top of the loop. */
  function Counted(f: Fields): Fields {
    if ParsingHeader(f.state) then f.(nread := f.nread + 1) else f
  }

  lemma CountedKeeps(f: Fields)
    requires Inv(f)
    ensures Inv(Counted(f))
  {
  }

  lemma RecordKeeps(f: Fields, a: Arm, log: seq<Event>, ch: byte)
    requires Good(f, a) && a.f.errno.OK? && Tail(f.state, log)
    ensures Tail(a.f.state, Record(log, LiveOf(f.state), a.e, ch))
  {
    hide Inv;
  }

  function Step(cfg: Config, m: Machine, ch: byte): (r: Machine)
    requires MachineInv(cfg, m) && m.f.errno.OK?
    ensures MachineInv(cfg, r)
  {
    hide Inv, Switch, Record, Tail;
    CountedKeeps(m.f);
    var f := Counted(m.f);
    if f.nread > cfg.maxHeader then Machine(f.(errno := HeaderOverflow), m.log, false)
    else
      var a := Switch(cfg, f, ch);
      if a.f.errno.OK? then
        RecordKeeps(f, a, m.log, ch);
        Machine(a.f, Record(m.log, LiveOf(m.f.state), a.e, ch), a.halt)
      else Machine(a.f, Refused(m.log, a.e), a.halt)
  }

  /** A step that does not fail is one arm of the switch. */
  lemma StepTaken(cfg: Config, m: Machine, ch: byte)
    requires MachineInv(cfg, m) && m.f.errno.OK? && Step(cfg, m, ch).f.errno.OK?
    ensures Inv(m.f) && Inv(Counted(m.f)) && (m.f.state.ChunkSizeStart? ==> Counted(m.f).nread == 1)
    ensures
      var a := Switch(cfg, Counted(m.f), ch);
      a.f.errno.OK? && Step(cfg, m, ch) == Machine(a.f, Record(m.log, LiveOf(m.f.state), a.e, ch), a.halt)
  {
    hide Inv, Switch, Record, Tail;
    CountedKeeps(m.f);
  }

  /** An arm that does not fail, below the limit, is the step. */
  lemma StepGiven(cfg: Config, m: Machine, ch: byte)
    requires MachineInv(cfg, m) && m.f.errno.OK? && m.f.nread < cfg.maxHeader
    ensures Inv(Counted(m.f)) && (m.f.state.ChunkSizeStart? ==> Counted(m.f).nread == 1)
    ensures
      var a := Switch(cfg, Counted(m.f), ch);
      a.f.errno.OK? ==> Step(cfg, m, ch) == Machine(a.f, Record(m.log, LiveOf(m.f.state), a.e, ch), a.halt)
  {
    hide Inv, Switch, Record, Tail;
    CountedKeeps(m.f);
  }

  /** The machine a new parser stands for. */
  function Fresh(cfg: Config, t: ParserType): (m: Machine)
    ensures MachineInv(cfg, m)
  {
    Machine(Fields(if t.Request? then StartReq else if t.Response? then StartRes else StartReqOrRes,
                   HGeneral, 0, false, 0, OK, View(t, NO_FLAGS, 0, 0, 0, 0, DELETE, false)), [], false)
  }

  /** The machine stops at an error and after an upgrade. */
  predicate Stopped(m: Machine) { m.halted || !m.f.errno.OK? }

  function Run(cfg: Config, m: Machine, data: seq<byte>): (r: Machine)
    requires MachineInv(cfg, m)
    ensures MachineInv(cfg, r)
    decreases |data|
  {
    hide MachineInv, Step;
    if data == [] || Stopped(m) then m else Run(cfg, Step(cfg, m, data[0]), data[1..])
  }

  lemma {:induction false} RunConcat(cfg: Config, m: Machine, a: seq<byte>, b: seq<byte>)
    requires MachineInv(cfg, m)
    ensures Run(cfg, m, a + b) == Run(cfg, Run(cfg, m, a), b)
    decreases |a|
  {
    hide MachineInv, Step;
    if a == [] {
      assert a + b == b;
    } else if !Stopped(m) {
      assert (a + b)[1..] == a[1..] + b;
      RunConcat(cfg, Step(cfg, m, a[0]), a[1..], b);
    }
  }

  lemma RunTwo(cfg: Config, m: Machine, a: byte, b: byte)
    requires MachineInv(cfg, m) && !Stopped(m) && !Stopped(Step(cfg, m, a))
    ensures Run(cfg, m, [a, b]) == Step(cfg, Step(cfg, m, a), b)
  {
    hide Step, MachineInv;
    assert [a, b][1..] == [b];
    assert [b][1..] == [];
    var m1 := Step(cfg, m, a);
    assert Run(cfg, m1, [b]) == Run(cfg, Step(cfg, m1, b), []);
  }

  // ---- the type of a parser ----

  lemma StepType(cfg: Config, m: Machine, ch: byte)
    requires MachineInv(cfg, m) && m.f.errno.OK? && !m.f.v.ptype.Both?
    ensures Step(cfg, m, ch).f.errno.OK? ==> Step(cfg, m, ch).f.v.ptype == m.f.v.ptype
  {
    hide Inv, Record, Switch;
    CountedKeeps(m.f);
  }

  /** A parser that knows whether it reads requests or responses does not change its mind. */
  lemma {:induction false} RunType(cfg: Config, m: Machine, data: seq<byte>)
    requires MachineInv(cfg, m) && m.f.errno.OK? && !m.f.v.ptype.Both?
    ensures var r := Run(cfg, m, data); r.f.errno.OK? ==> r.f.v.ptype == m.f.v.ptype
    decreases |data|
  {
    hide Step, MachineInv;
    if data != [] && !Stopped(m) {
      StepType(cfg, m, data[0]);
      var s := Step(cfg, m, data[0]);
      if s.f.errno.OK? { RunType(cfg, s, data[1..]); }
    }
  }
}
