/** The end of a connection, over any sequence of calls, those without data included. */
module HttpClosing {
  import opened Bytes
  import opened HttpTypes
  import opened HttpArms
  import opened HttpMachine
  import opened HttpBulk
  import opened HttpParser

  // ---- calls ----

  /** What a call without data does to the machine: the peer has closed the connection. */
  function AtEnd(cfg: Config, m: Machine): (r: Machine)
    requires MachineInv(cfg, m) && m.f.errno.OK?
    ensures MachineInv(cfg, r)
  {
    if m.f.state.BodyIdentityEof? then Machine(m.f, m.log + [Notify(MessageComplete, m.f.v)], false)
    else if Starting(m.f.state) then m.(halted := false)
    else m.(f := m.f.(errno := InvalidEofState), halted := false)
  }

  /** One call, after which the next one starts afresh. */
  function Call(cfg: Config, m: Machine, data: seq<byte>): (r: Machine)
    requires MachineInv(cfg, m)
    ensures MachineInv(cfg, r)
  {
    if !m.f.errno.OK? then m
    else if data == [] then AtEnd(cfg, m)
    else Run(cfg, m.(halted := false), data).(halted := false)
  }

  function Calls(cfg: Config, m: Machine, calls: seq<seq<byte>>): (r: Machine)
    requires MachineInv(cfg, m)
    ensures MachineInv(cfg, r)
  {
    hide MachineInv, Call;
    if calls == [] then m else Call(cfg, Calls(cfg, m, calls[..|calls| - 1]), calls[|calls| - 1])
  }

  // ---- what must not happen ----

  /** A message completed whose record says that the connection is not kept alive. */
  predicate IsLast(ev: Event) { ev.Notify? && ev.note.MessageComplete? && !ShouldKeepAlive(ev.view) }

  predicate Over(notices: seq<Event>) { exists i | 0 <= i < |notices| :: IsLast(notices[i]) }

  /** No message begins after the last one. */
  predicate Closes(notices: seq<Event>) {
    forall i, j | 0 <= i < j < |notices| :: IsLast(notices[i]) ==> !IsBegin(notices[j])
  }

  /** A last message leaves the parser dead, or waiting for a close that has been reported. */
  predicate CloseInv(m: Machine) {
    var n := Notices(m.log);
    Closes(n) && (m.f.errno.OK? && Over(n) ==> m.f.state.Dead? || m.f.state.BodyIdentityEof?)
  }

  // ---- one byte ----

  lemma ClosesMore(notices: seq<Event>, ev: Event)
    requires Closes(notices) && (Over(notices) ==> !IsBegin(ev))
    ensures Closes(notices + [ev]) && (Over(notices + [ev]) <==> Over(notices) || IsLast(ev))
  {
    var n := notices + [ev];
    if IsLast(ev) { assert IsLast(n[|notices|]); }
    if Over(notices) {
      var i :| 0 <= i < |notices| && IsLast(notices[i]);
      assert IsLast(n[i]);
    }
  }

  /** The notifications of one byte. */
  lemma NoticesRecord(log: seq<Event>, live: Option<Kind>, e: Effect, ch: byte)
    ensures Notices(Record(log, live, e, ch)) == Notices(log) + NoteEvents(e.notes)
  {
    hide Push, PushAll, Notices, NoteEvents;
    var l1 := if e.empty.Some? then Push(log, Data(e.empty.value, [])) else log;
    if e.empty.Some? { NoticesPush(log, Data(e.empty.value, [])); }
    var l2 := if e.body then Push(l1, Data(KBody, [ch])) else l1;
    if e.body { NoticesPush(l1, Data(KBody, [ch])); }
    var l3 := PushAll(l2, NoteEvents(e.notes));
    NoticesPushAll(l2, NoteEvents(e.notes));
    AllNotices(e.notes);
    if e.open.Some? { NoticesPush(l3, Data(e.open.value, [ch])); }
    else if live.Some? && e.close.None? { NoticesPush(l3, Data(live.value, [ch])); }
  }

  lemma AllNotices(notes: Notes)
    ensures Notices(NoteEvents(notes)) == NoteEvents(notes)
  {
    match notes
    case Silent =>
    case Once(a, v) =>
      NoticesOne([], Notify(a, v));
      assert [] + [Notify(a, v)] == [Notify(a, v)];
    case Twice(a, v, b, w) =>
      NoticesOne([], Notify(a, v));
      NoticesOne([] + [Notify(a, v)], Notify(b, w));
      assert [] + [Notify(a, v)] + [Notify(b, w)] == [Notify(a, v), Notify(b, w)];
  }

  /** The notifications of a byte of a message that is not the last. */
  lemma NotesClose(f: Fields, a: Arm, notices: seq<Event>)
    requires Good(f, a) && a.f.errno.OK? && Closes(notices) && !Over(notices)
    ensures var n := notices + NoteEvents(a.e.notes); Closes(n) && (Over(n) ==> a.f.state.Dead?)
  {
    hide Inv, Fits, ShouldKeepAlive;
    match a.e.notes
    case Silent => assert notices + [] == notices;
    case Once(x, v) => ClosesMore(notices, Notify(x, v));
    case Twice(x, v, y, w) =>
      ClosesMore(notices, Notify(x, v));
      ClosesMore(notices + [Notify(x, v)], Notify(y, w));
      assert notices + [Notify(x, v)] + [Notify(y, w)] == notices + [Notify(x, v), Notify(y, w)];
  }

  /** A message that a byte completes leaves the state that its record asks for: dead if it is the last. */
  lemma ByteCompletes(cfg: Config, m: Machine, ch: byte)
    requires MachineInv(cfg, m) && !Stopped(m) && Step(cfg, m, ch).f.errno.OK?
    ensures
      var r := Step(cfg, m, ch);
      var n := Notices(r.log);
      && Notices(m.log) <= n
      && (Notices(m.log) < n && n[|n| - 1].Notify? && n[|n| - 1].note.MessageComplete?
        ==> r.f.state == NewMessage(n[|n| - 1].view))
  {
    hide Inv, Switch, Record, Notices, NewMessage, Fits;
    CountedKeeps(m.f);
    var f := Counted(m.f);
    var a := Switch(cfg, f, ch);
    NoticesRecord(m.log, LiveOf(m.f.state), a.e, ch);
  }

  lemma StepDead(cfg: Config, m: Machine, ch: byte)
    requires MachineInv(cfg, m) && m.f.errno.OK? && m.f.state.Dead?
    ensures Step(cfg, m, ch).log == m.log && Step(cfg, m, ch).f.state.Dead? && !Step(cfg, m, ch).halted
  {
    hide Inv;
    CountedKeeps(m.f);
  }

  lemma StepCloses(cfg: Config, m: Machine, ch: byte)
    requires MachineInv(cfg, m) && !Stopped(m) && CloseInv(m)
    ensures CloseInv(Step(cfg, m, ch))
  {
    if m.f.state.Dead? {
      StepDead(cfg, m, ch);
    } else if m.f.state.BodyIdentityEof? {
      StepEof(cfg, m, ch);
      NoticesPush(m.log, Data(KBody, [ch]));
    } else {
      hide Inv, Switch, Record, Notices, Closes, Over;
      CountedKeeps(m.f);
      var f := Counted(m.f);
      if f.nread <= cfg.maxHeader {
        var a := Switch(cfg, f, ch);
        if a.f.errno.OK? {
          NoticesRecord(m.log, LiveOf(m.f.state), a.e, ch);
          NotesClose(f, a, Notices(m.log));
        } else if a.e.empty.Some? {
          NoticesPush(m.log, Data(a.e.empty.value, []));
        }
      }
    }
  }

  lemma {:induction false} RunCloses(cfg: Config, m: Machine, data: seq<byte>)
    requires MachineInv(cfg, m) && CloseInv(m)
    ensures CloseInv(Run(cfg, m, data))
    decreases |data|
  {
    hide MachineInv, Step, CloseInv;
    if data != [] && !Stopped(m) {
      StepCloses(cfg, m, data[0]);
      RunCloses(cfg, Step(cfg, m, data[0]), data[1..]);
    }
  }

  // ---- any calls ----

  lemma CallCloses(cfg: Config, m: Machine, data: seq<byte>)
    requires MachineInv(cfg, m) && CloseInv(m)
    ensures CloseInv(Call(cfg, m, data))
  {
    hide Notices, Closes, Over, Run, Inv;
    if m.f.errno.OK? {
      if data == [] {
        if m.f.state.BodyIdentityEof? {
          NoticesOne(m.log, Notify(MessageComplete, m.f.v));
          ClosesMore(Notices(m.log), Notify(MessageComplete, m.f.v));
        }
      } else {
        RunCloses(cfg, m.(halted := false), data);
      }
    }
  }

  /**
    * Connection end: whatever calls are made on a new parser, no message begins after one that is completed and
    * does not keep the connection alive. If there is such a message and no error, the parser is dead, or it is
    * still in the body that lasts until the connection closes, and then the close has been reported.
    */
  lemma {:induction false} ConnectionEnd(cfg: Config, t: ParserType, calls: seq<seq<byte>>)
    ensures CloseInv(Calls(cfg, Fresh(cfg, t), calls))
    decreases |calls|
  {
    hide MachineInv, Call, Notices;
    if calls == [] {
      assert Notices([]) == [] by { NoNotices([]); }
    } else {
      hide CloseInv;
      var init := calls[..|calls| - 1];
      ConnectionEnd(cfg, t, init);
      CallCloses(cfg, Calls(cfg, Fresh(cfg, t), init), calls[|calls| - 1]);
    }
  }

  /** A body that lasts until the connection closes is never kept alive, so the close ends its connection. */
  lemma CloseIsLast(cfg: Config, m: Machine)
    requires MachineInv(cfg, m) && m.f.errno.OK? && m.f.state.BodyIdentityEof?
    ensures Call(cfg, m, []).f == m.f && Call(cfg, m, []).log == m.log + [Notify(MessageComplete, m.f.v)]
    ensures IsLast(Notify(MessageComplete, m.f.v))
  {
  }

  // ---- when nothing at all follows ----

  lemma {:induction false} RunDead(cfg: Config, m: Machine, data: seq<byte>)
    requires MachineInv(cfg, m) && m.f.state.Dead?
    ensures Run(cfg, m, data).log == m.log && Run(cfg, m, data).f.state.Dead?
    decreases |data|
  {
    hide MachineInv, Step;
    if data != [] && !Stopped(m) {
      StepDead(cfg, m, data[0]);
      RunDead(cfg, Step(cfg, m, data[0]), data[1..]);
    }
  }

  /** A dead parser makes no callback, whatever calls follow. */
  lemma {:induction false} DeadIsSilent(cfg: Config, m: Machine, calls: seq<seq<byte>>)
    requires MachineInv(cfg, m) && m.f.state.Dead?
    ensures Calls(cfg, m, calls).log == m.log && Calls(cfg, m, calls).f.state.Dead?
    decreases |calls|
  {
    hide MachineInv, Run;
    if calls != [] {
      var r := Calls(cfg, m, calls[..|calls| - 1]);
      DeadIsSilent(cfg, m, calls[..|calls| - 1]);
      Restart(cfg, r);
      RunDead(cfg, r.(halted := false), calls[|calls| - 1]);
    }
  }

  lemma Restart(cfg: Config, m: Machine)
    requires MachineInv(cfg, m)
    ensures MachineInv(cfg, m.(halted := false))
  {
  }

  /** After a close has been reported, further bytes are still delivered as body. */
  lemma BytesAfterClose(cfg: Config, m: Machine, x: byte)
    requires MachineInv(cfg, m) && m.f.errno.OK? && m.f.state.BodyIdentityEof?
    ensures
      var r := Calls(cfg, m, [[], [x]]);
      r.log == m.log + [Notify(MessageComplete, m.f.v), Data(KBody, [x])] && r.f == m.f
  {
    hide MachineInv, Step, Call;
    var calls: seq<seq<byte>> := [[], [x]];
    var one: seq<seq<byte>> := [[]];
    assert calls[..1] == one && one[..0] == [];
    assert Calls(cfg, m, one[..0]) == m;
    var r := Call(cfg, m, []);
    assert Calls(cfg, m, one) == r;
    CloseIsLast(cfg, m);
    BodyByte(cfg, r, x);
    assert r.log + [Data(KBody, [x])] == m.log + [Notify(MessageComplete, m.f.v), Data(KBody, [x])];
  }

  lemma BodyByte(cfg: Config, m: Machine, x: byte)
    requires MachineInv(cfg, m) && m.f.errno.OK? && m.f.state.BodyIdentityEof? && !EndsIn(m.log, KBody)
    ensures Call(cfg, m, [x]).log == m.log + [Data(KBody, [x])] && Call(cfg, m, [x]).f == m.f
  {
    hide Inv, Step;
    var n := m.(halted := false);
    StepEof(cfg, n, x);
    assert [x][1..] == [];
    assert Run(cfg, n, [x]) == Run(cfg, Step(cfg, n, x), []);
  }

  /**
    * After the last message no callback at all follows exactly if the parser is dead, so exactly if a byte
    * completed it.
    */
  lemma SilentExactlyWhenDead(cfg: Config, m: Machine)
    requires MachineInv(cfg, m) && m.f.errno.OK? && (m.f.state.Dead? || m.f.state.BodyIdentityEof?)
    ensures m.f.state.Dead? <==> forall calls: seq<seq<byte>> :: Calls(cfg, m, calls).log == m.log
  {
    hide MachineInv, Call;
    if m.f.state.Dead? {
      forall calls: seq<seq<byte>> ensures Calls(cfg, m, calls).log == m.log { DeadIsSilent(cfg, m, calls); }
    } else {
      BytesAfterClose(cfg, m, 0);
    }
  }

  // ---- the parser object ----

  /** The parser, called with each piece in turn, makes no message begin after the last one. */
  method Serve(cfg: Config, t: ParserType, calls: seq<seq<byte>>) returns (parser: Parser)
    requires forall i | 0 <= i < |calls| :: cfg.maxHeader + |calls[i]| < TWO_32
    ensures parser.Valid() && parser.cfg == cfg && Closes(Notices(parser.log))
    ensures parser.f.errno.OK? <==> Calls(cfg, Fresh(cfg, t), calls).f.errno.OK?
    ensures parser.f.errno.OK? ==> parser.Abs() == Calls(cfg, Fresh(cfg, t), calls)
  {
    hide MachineInv, Run, Joined, Call, Notices, Closes;
    parser := new Parser(cfg, t);
    ghost var m := Fresh(cfg, t);
    assert calls[..0] == [];
    ConnectionEnd(cfg, t, []);
    for i := 0 to |calls|
      invariant parser.Valid() && parser.cfg == cfg && fresh(parser)
      invariant Closes(Notices(parser.log))
      invariant var r := Calls(cfg, m, calls[..i]);
                if r.f.errno.OK? then parser.Abs() == r else !parser.f.errno.OK?
    {
      ghost var r := Calls(cfg, m, calls[..i]);
      assert calls[..i + 1][..i] == calls[..i];
      ConnectionEnd(cfg, t, calls[..i]);
      One(parser, calls[i]);
      if !r.f.errno.OK? { CallAfterError(cfg, r, calls[i]); }
      if parser.f.errno.OK? { ConnectionEnd(cfg, t, calls[..i + 1]); }
    }
    assert calls[..|calls|] == calls;
  }

  lemma CallAfterError(cfg: Config, m: Machine, data: seq<byte>)
    requires MachineInv(cfg, m) && !m.f.errno.OK?
    ensures Call(cfg, m, data) == m
  {
  }

  /** One call on the object is one call on the machine; if it fails, its notifications are still the machine's. */
  method One(parser: Parser, data: seq<byte>)
    requires parser.Valid() && parser.cfg.maxHeader + |data| < TWO_32
    requires Closes(Notices(parser.log)) && (parser.f.errno.OK? ==> CloseInv(parser.Abs()))
    modifies parser`f, parser`log
    ensures parser.Valid() && Closes(Notices(parser.log))
    ensures
      var r := Call(parser.cfg, old(parser.Abs()), data);
      if r.f.errno.OK? then parser.Abs() == r else !parser.f.errno.OK?
    ensures !old(parser.f.errno.OK?) ==> !parser.f.errno.OK?
  {
    hide Inv, Run, Joined, Notices, Closes, Over, Step;
    ghost var m, log := parser.Abs(), parser.log;
    var _ := parser.Execute(data);
    NoticesJoined(parser.log);
    if !m.f.errno.OK? {
    } else if data == [] {
      if m.f.state.BodyIdentityEof? {
        JoinedNote(log, Notify(MessageComplete, m.f.v));
        CallCloses(parser.cfg, m, data);
      }
    } else if parser.f.errno.OK? {
      CallCloses(parser.cfg, m, data);
    } else {
      ghost var k :| 0 <= k <= |data| && parser.Reached(m, data[..k]);
      RunCloses(parser.cfg, m, data[..k]);
    }
  }

  lemma NoticesJoined(log: seq<Event>)
    ensures Notices(Joined(log)) == Notices(log)
  {
    NoticesPushAll([], log);
    assert [] + Notices(log) == Notices(log);
  }

  lemma JoinedNote(log: seq<Event>, ev: Event)
    requires ev.Notify?
    ensures Joined(log + [ev]) == Joined(log) + [ev]
  {
    assert (log + [ev])[..|log|] == log;
  }
}
