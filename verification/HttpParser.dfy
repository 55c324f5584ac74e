/**
  * `http_parser_execute` as it is written: a loop over the buffer with marks into it, bulk loops for header and body
  * bytes, and callbacks that deliver the marked bytes.  Its contract is the one-byte machine of `HttpMachine`.
  */
module HttpParser {
  import opened Bytes
  import opened HttpTypes
  import opened HttpArms
  import opened HttpMachine
  import opened HttpBulk

  /** The five `*_mark` variables: absent means NULL. */
  type Marks = map<Kind, nat>

  /** States in which bytes of a body may still be marked. */
  predicate AfterBody(s: State) { s.ChunkData? || s.ChunkDataAlmostDone? || s.BodyIdentity? || s.BodyIdentityEof? }

  /** The mark of the state is set, and no other. */
  predicate MarksOk(s: State, marks: Marks, p: nat) {
    && (forall k | k in marks :: marks[k] <= p)
    && (if LiveOf(s).Some? then marks.Keys == {LiveOf(s).value}
        else if AfterBody(s) then marks.Keys <= {KBody}
        else marks.Keys == {})
  }

  /** The events still to come from the marks: `CALLBACK_DATA_NOADVANCE` for each of them in turn. */
  function Pending(marks: Marks, data: seq<byte>, p: nat): seq<Event>
    requires p <= |data| && forall k | k in marks :: marks[k] <= p
  {
    PendingOf(KField, marks, data, p) + PendingOf(KValue, marks, data, p) + PendingOf(KUrl, marks, data, p)
    + PendingOf(KBody, marks, data, p) + PendingOf(KStatus, marks, data, p)
  }

  /** `CALLBACK_DATA`: nothing when the mark is not set. */
  function PendingOf(k: Kind, marks: Marks, data: seq<byte>, p: nat): seq<Event>
    requires p <= |data| && (k in marks ==> marks[k] <= p)
  {
    if k in marks then [Data(k, data[marks[k]..p])] else []
  }

  lemma PendingOne(k: Kind, marks: Marks, data: seq<byte>, p: nat)
    requires p <= |data| && marks.Keys == {k} && marks[k] <= p
    ensures Pending(marks, data, p) == [Data(k, data[marks[k]..p])]
  {
  }

  lemma PendingNone(marks: Marks, data: seq<byte>, p: nat)
    requires p <= |data| && marks.Keys == {}
    ensures Pending(marks, data, p) == []
  {
  }

  /** The joined log if the call ended here. */
  function LogNow(log: seq<Event>, marks: Marks, data: seq<byte>, p: nat): seq<Event>
    requires p <= |data| && forall k | k in marks :: marks[k] <= p
  {
    PushAll(Joined(log), Pending(marks, data, p))
  }

  lemma LogNowOne(log: seq<Event>, k: Kind, marks: Marks, data: seq<byte>, p: nat)
    requires p <= |data| && marks.Keys == {k} && marks[k] <= p
    ensures LogNow(log, marks, data, p) == Push(Joined(log), Data(k, data[marks[k]..p]))
  {
    PendingOne(k, marks, data, p);
    PushAllOne(Joined(log), Data(k, data[marks[k]..p]));
  }

  lemma LogNowNone(log: seq<Event>, marks: Marks, data: seq<byte>, p: nat)
    requires p <= |data| && marks.Keys == {}
    ensures LogNow(log, marks, data, p) == Joined(log)
  {
    PendingNone(marks, data, p);
  }

  /** What is marked but not delivered holds no notification. */
  lemma NoticesNow(log: seq<Event>, marks: Marks, data: seq<byte>, p: nat)
    requires p <= |data| && forall k | k in marks :: marks[k] <= p
    ensures Notices(LogNow(log, marks, data, p)) == Notices(log)
  {
    var waiting := Pending(marks, data, p);
    hide Pending, PushAll;
    NoticesPushAll(Joined(log), waiting);
    NoticesPushAll([], log);
    PendingIsData(marks, data, p);
    NoNotices(waiting);
    hide Notices;
  }

  lemma PendingIsData(marks: Marks, data: seq<byte>, p: nat)
    requires p <= |data| && forall k | k in marks :: marks[k] <= p
    ensures var waiting := Pending(marks, data, p); forall i | 0 <= i < |waiting| :: waiting[i].Data?
  {
  }

  lemma {:induction false} NoNotices(evs: seq<Event>)
    requires forall i | 0 <= i < |evs| :: evs[i].Data?
    ensures Notices(evs) == []
    decreases |evs|
  {
    if evs != [] { NoNotices(evs[..|evs| - 1]); }
  }

  /** A live mark takes in the bytes up to `q`. */
  lemma Extend(log: seq<Event>, k: Kind, marks: Marks, data: seq<byte>, p: nat, q: nat)
    requires p <= q <= |data| && marks.Keys == {k} && marks[k] <= p
    ensures LogNow(log, marks, data, q) == Push(LogNow(log, marks, data, p), Data(k, data[p..q]))
  {
    hide LogNow, Push, Joined, Pending;
    LogNowOne(log, k, marks, data, p);
    LogNowOne(log, k, marks, data, q);
    PushSplit(Joined(log), k, data[marks[k]..p], data[p..q]);
    assert data[marks[k]..p] + data[p..q] == data[marks[k]..q];
  }

  /** `MARK`: keeps a mark that is already set. */
  function Mark(marks: Marks, k: Kind, p: nat): Marks { if k in marks then marks else marks[k := p] }

  /** Body bytes are marked, whether or not the mark was set before. */
  lemma ExtendBody(log: seq<Event>, marks: Marks, data: seq<byte>, p: nat, q: nat)
    requires p < q <= |data| && marks.Keys <= {KBody} && (KBody in marks ==> marks[KBody] <= p)
    ensures var ms := Mark(marks, KBody, p);
            ms.Keys == {KBody} && ms[KBody] <= p
            && LogNow(log, ms, data, q) == Push(LogNow(log, marks, data, p), Data(KBody, data[p..q]))
  {
    var ms := Mark(marks, KBody, p);
    assert ms.Keys == {KBody};
    if KBody in marks {
      Extend(log, KBody, marks, data, p, q);
    } else {
      LogNowNone(log, marks, data, p);
      LogNowOne(log, KBody, ms, data, q);
    }
  }

  /** Deliver everything that is marked. */
  lemma Deliver(log: seq<Event>, marks: Marks, data: seq<byte>, p: nat)
    requires p <= |data| && forall k | k in marks :: marks[k] <= p
    ensures Joined(log + Pending(marks, data, p)) == LogNow(log, marks, data, p)
  {
    PushAllConcat([], log, Pending(marks, data, p));
  }

  /** The last byte of a mark is delivered with it, and nothing else is marked then. */
  lemma DeliverLast(log: seq<Event>, k: Kind, marks: Marks, data: seq<byte>, p: nat)
    requires p < |data| && marks.Keys == {k} && marks[k] <= p
    ensures
      var l, rest := log + PendingOf(k, marks, data, p), marks - {k};
      rest.Keys == {} && LogNow(l, rest, data, p + 1) == LogNow(log, marks, data, p)
  {
    hide LogNow, Joined;
    PendingOne(k, marks, data, p);
    Deliver(log, marks, data, p);
    LogNowNone(log + PendingOf(k, marks, data, p), marks - {k}, data, p + 1);
  }

  // ---- the callbacks of one byte ----

  /** Run the callbacks of an arm that takes one byte at `p`. */
  function Fire(log: seq<Event>, marks: Marks, data: seq<byte>, p: nat, e: Effect): (seq<Event>, Marks)
    requires p < |data| && forall k | k in marks :: marks[k] <= p
  {
    var l1 := if e.close.Some? then log + PendingOf(e.close.value, marks, data, p) else log;
    var m1 := if e.close.Some? then marks - {e.close.value} else marks;
    var l2 := if e.empty.Some? then l1 + [Data(e.empty.value, [])] else l1;
    var l3 := l2 + NoteEvents(e.notes);
    (l3, if e.open.Some? then Mark(m1, e.open.value, p) else m1)
  }

  /** The state keeps its mark. */
  lemma FireLive(log: seq<Event>, marks: Marks, data: seq<byte>, p: nat, s: State, t: State)
    requires p < |data| && MarksOk(s, marks, p) && Fits(s, NONE, t) && LiveOf(s).Some?
    ensures var (l, ms) := Fire(log, marks, data, p, NONE);
            MarksOk(t, ms, p + 1)
            && LogNow(l, ms, data, p + 1) == Record(LogNow(log, marks, data, p), LiveOf(s), NONE, data[p])
  {
    hide LogNow, Push, Joined, Pending;
    assert log + [] == log;
    Extend(log, LiveOf(s).value, marks, data, p, p + 1);
    assert data[p..p + 1] == [data[p]];
  }

  /** The mark is delivered and another one may be set. */
  lemma FireClose(log: seq<Event>, marks: Marks, data: seq<byte>, p: nat, s: State, e: Effect, t: State)
    requires p < |data| && MarksOk(s, marks, p) && Fits(s, e, t) && e.close.Some? && !e.body
    ensures var (l, ms) := Fire(log, marks, data, p, e);
            MarksOk(t, ms, p + 1)
            && LogNow(l, ms, data, p + 1) == Record(LogNow(log, marks, data, p), LiveOf(s), e, data[p])
  {
    var k := e.close.value;
    assert e.empty.None? && e.notes.Silent?;
    var l1 := log + PendingOf(k, marks, data, p);
    assert l1 + [] == l1;
    assert (marks - {k}).Keys == {};
    if k in marks {
      assert marks.Keys == {k};
      PendingOne(k, marks, data, p);
    } else {
      PendingNone(marks, data, p);
    }
    Deliver(log, marks, data, p);
    FireOpen(l1, marks - {k}, data, p, e.open);
  }

  lemma FireOpen(log: seq<Event>, marks: Marks, data: seq<byte>, p: nat, open: Option<Kind>)
    requires p < |data| && marks.Keys == {}
    ensures var ms := if open.Some? then Mark(marks, open.value, p) else marks;
            && ms.Keys == (if open.Some? then {open.value} else {})
            && (forall k | k in ms :: ms[k] <= p + 1)
            && LogNow(log, ms, data, p + 1)
               == if open.Some? then Push(Joined(log), Data(open.value, [data[p]])) else Joined(log)
  {
    hide LogNow, Push, Joined, Pending;
    if open.Some? {
      var ms := Mark(marks, open.value, p);
      assert ms.Keys == {open.value};
      LogNowOne(log, open.value, ms, data, p + 1);
      assert data[p..p + 1] == [data[p]];
    } else {
      LogNowNone(log, marks, data, p + 1);
    }
  }

  /** No mark is set: an empty value, notifications, and a mark that may be set here. */
  lemma FireFresh(log: seq<Event>, marks: Marks, data: seq<byte>, p: nat, s: State, e: Effect, t: State)
    requires p < |data| && MarksOk(s, marks, p) && Fits(s, e, t) && LiveOf(s).None? && !AfterBody(s) && !e.body
    ensures var (l, ms) := Fire(log, marks, data, p, e);
            MarksOk(t, ms, p + 1)
            && LogNow(l, ms, data, p + 1) == Record(LogNow(log, marks, data, p), LiveOf(s), e, data[p])
  {
    assert e.close.None?;
    LogNowNone(log, marks, data, p);
    var l2 := if e.empty.Some? then log + [Data(e.empty.value, [])] else log;
    if e.empty.Some? {
      PushAllConcat([], log, [Data(e.empty.value, [])]);
      PushAllOne(Joined(log), Data(e.empty.value, []));
    }
    PushAllConcat([], l2, NoteEvents(e.notes));
    FireOpen(l2 + NoteEvents(e.notes), marks, data, p, e.open);
  }

  lemma FireByte(log: seq<Event>, marks: Marks, data: seq<byte>, p: nat, f: Fields, a: Arm)
    requires p < |data| && MarksOk(f.state, marks, p) && Good(f, a) && a.f.errno.OK?
    requires !f.state.ChunkData? && !f.state.BodyIdentity? && !f.state.BodyIdentityEof?
    ensures var (l, ms) := Fire(log, marks, data, p, a.e);
            MarksOk(a.f.state, ms, p + 1)
            && LogNow(l, ms, data, p + 1) == Record(LogNow(log, marks, data, p), LiveOf(f.state), a.e, data[p])
  {
    hide Inv, LogNow, Record, Fire;
    if a.e.close.Some? {
      FireClose(log, marks, data, p, f.state, a.e, a.f.state);
    } else if LiveOf(f.state).Some? {
      FireLive(log, marks, data, p, f.state, a.f.state);
    } else {
      FireFresh(log, marks, data, p, f.state, a.e, a.f.state);
    }
  }

  // ---- pieces of a run ----

  lemma RunOne(cfg: Config, m: Machine, data: seq<byte>, p: nat)
    requires MachineInv(cfg, m) && !Stopped(m) && p < |data|
    ensures Run(cfg, m, data[p..p + 1]) == Step(cfg, m, data[p])
  {
    hide MachineInv, Step;
    RunSnoc(cfg, m, data[p..p + 1]);
    assert data[p..p + 1][..0] == [];
  }

  lemma RunMore(cfg: Config, m: Machine, data: seq<byte>, p: nat, q: nat)
    requires MachineInv(cfg, m) && p <= q <= |data|
    ensures Run(cfg, m, data[p..]) == Run(cfg, Run(cfg, m, data[p..q]), data[q..])
  {
    hide MachineInv, Step;
    RunConcat(cfg, m, data[p..q], data[q..]);
    assert data[p..] == data[p..q] + data[q..];
  }

  /** The machine in front of `data[r]`, after a run of field name bytes. */
  function AfterField(m: Machine, bytes: seq<byte>): Machine
    requires FieldHs(m.f.hs)
  {
    Machine(FoldField(m.f, bytes).(nread := m.f.nread + |bytes|), Push(m.log, Data(KField, bytes)), false)
  }

  ghost predicate FieldRun(cfg: Config, m: Machine, data: seq<byte>, p: nat, r: nat) {
    && MachineInv(cfg, m) && !Stopped(m) && m.f.state.HeaderField? && FieldHs(m.f.hs)
    && p <= r <= |data| && p < |data| && TokensIn(data, p, r) && (r < |data| ==> Token(data[r]) == 0)
  }

  lemma FieldRan(cfg: Config, m: Machine, data: seq<byte>, p: nat, r: nat)
    requires FieldRun(cfg, m, data, p, r) && m.f.nread + (r - p) <= cfg.maxHeader
    ensures Run(cfg, m, data[p..r]) == AfterField(m, data[p..r])
  {
    hide MachineInv, Token, FieldHs, FoldField;
    RunField(cfg, m, data[p..r]);
  }

  /** More field name bytes than the header limit allows. */
  lemma FieldTooLong(cfg: Config, m: Machine, data: seq<byte>, p: nat, r: nat)
    requires MachineInv(cfg, m) && !Stopped(m) && m.f.state.HeaderField? && FieldHs(m.f.hs)
    requires p <= r <= |data| && p < |data| && TokensIn(data, p, r)
    requires m.f.nread + (if r == |data| then r - p else r - p + 1) > cfg.maxHeader
    ensures !Run(cfg, m, data[p..]).f.errno.OK?
  {
    hide Inv, Switch, Token, FieldHs, FoldField;
    RunField(cfg, m, data[p..r]);
    RunMore(cfg, m, data, p, r);
    if m.f.nread + (r - p) <= cfg.maxHeader {
      var n := Run(cfg, m, data[p..r]);
      RunOne(cfg, n, data, r);
      RunMore(cfg, n, data, r, r + 1);
    }
  }

  lemma ReadyField(cfg: Config, m: Machine)
    requires MachineInv(cfg, m) && m.f.errno.OK? && m.f.state.HeaderField?
    ensures FieldHs(m.f.hs) && m.f.nread <= cfg.maxHeader
  {
  }

  lemma StepFieldEnd(cfg: Config, m: Machine, ch: byte)
    requires MachineInv(cfg, m) && !Stopped(m) && m.f.state.HeaderField? && Token(ch) == 0 && m.f.nread < cfg.maxHeader
    ensures if ch == 58
        then Step(cfg, m, ch) == Machine(m.f.(state := Discard(DiscardWs), nread := m.f.nread + 1), m.log, false)
            else !Step(cfg, m, ch).f.errno.OK?
  {
    hide Inv, Token, MatchField;
    CountedKeeps(m.f);
  }

  /** The byte after a field name. */
  lemma FieldEnded(cfg: Config, m: Machine, data: seq<byte>, p: nat, r: nat)
    requires FieldRun(cfg, m, data, p, r) && r < |data| && m.f.nread + (r - p) < cfg.maxHeader
    ensures var n := AfterField(m, data[p..r]);
            if data[r] == 58
            then Run(cfg, m, data[p..r + 1])
              == Machine(n.f.(state := Discard(DiscardWs), nread := n.f.nread + 1), n.log, false)
            else !Run(cfg, m, data[p..]).f.errno.OK?
  {
    hide Inv, Step, Token, FieldHs, FoldField;
    FieldRan(cfg, m, data, p, r);
    var n := Run(cfg, m, data[p..r]);
    StepFieldEnd(cfg, n, data[r]);
    RunOne(cfg, n, data, r);
    RunMore(cfg, m, data, p, r);
    RunMore(cfg, n, data, r, r + 1);
    RunConcat(cfg, m, data[p..r], data[r..r + 1]);
    assert data[p..r] + data[r..r + 1] == data[p..r + 1];
  }

  /** The bytes of a name, as far as they are there, are marked. */
  lemma FieldMarked(cfg: Config, f: Fields, log: seq<Event>, marks: Marks, data: seq<byte>, p: nat, r: nat)
    requires p < |data| && marks.Keys == {KField} && marks[KField] <= p
    requires FieldRun(cfg, Machine(f, LogNow(log, marks, data, p), false), data, p, r)
    requires f.nread + (r - p) <= cfg.maxHeader
    ensures Run(cfg, Machine(f, LogNow(log, marks, data, p), false), data[p..r])
         == Machine(FoldField(f, data[p..r]).(nread := f.nread + (r - p)), LogNow(log, marks, data, r), false)
  {
    hide MachineInv, LogNow, FieldHs, FoldField, Token, Run, Push;
    FieldRan(cfg, Machine(f, LogNow(log, marks, data, p), false), data, p, r);
    Extend(log, KField, marks, data, p, r);
  }

  /** The colon delivers them. */
  lemma FieldDone(cfg: Config, f: Fields, log: seq<Event>, marks: Marks, data: seq<byte>, p: nat, r: nat)
    requires p < |data| && marks.Keys == {KField} && marks[KField] <= p
    requires FieldRun(cfg, Machine(f, LogNow(log, marks, data, p), false), data, p, r)
    requires r < |data| && f.nread + (r - p) < cfg.maxHeader
    ensures
      var m, g := Machine(f, LogNow(log, marks, data, p), false), FoldField(f, data[p..r]);
      var l, rest := log + PendingOf(KField, marks, data, r), marks - {KField};
      if data[r] == 58 then
        && rest.Keys == {}
        && Run(cfg, m, data[p..r + 1])
           == Machine(g.(state := Discard(DiscardWs), nread := f.nread + (r - p) + 1),
                      LogNow(l, rest, data, r + 1), false)
      else !Run(cfg, m, data[p..]).f.errno.OK?
  {
    hide MachineInv, LogNow, FieldHs, FoldField, Token, Run, Push, PendingOf;
    FieldEnded(cfg, Machine(f, LogNow(log, marks, data, p), false), data, p, r);
    Extend(log, KField, marks, data, p, r);
    DeliverLast(log, KField, marks, data, r);
  }

  lemma ReadyValue(cfg: Config, m: Machine)
    requires MachineInv(cfg, m) && m.f.errno.OK? && m.f.state.HeaderValue?
    ensures ValueHs(m.f.hs) && m.f.v.contentLength < TWO_64 && m.f.nread <= cfg.maxHeader
  {
  }

  ghost predicate InValueRun(cfg: Config, m: Machine, data: seq<byte>, p: nat) {
    && MachineInv(cfg, m) && !Stopped(m) && m.f.state.HeaderValue? && ValueHs(m.f.hs) && m.f.v.contentLength < TWO_64
    && p < |data|
  }

  /** The machine after a run of value bytes that leads to the record `g`. */
  function AfterValue(m: Machine, g: Fields, bytes: seq<byte>): Machine {
    Machine(g.(nread := m.f.nread + |bytes|), Push(m.log, Data(KValue, bytes)), false)
  }

  lemma ValueRan(cfg: Config, m: Machine, data: seq<byte>, p: nat, g: Fields, r: nat)
    requires InValueRun(cfg, m, data, p) && p <= r <= |data| && Scanned(cfg, m.f, data, p, g, r) && g.errno.OK?
    requires m.f.nread + (r - p) <= cfg.maxHeader
    ensures Run(cfg, m, data[p..r]) == AfterValue(m, g, data[p..r])
  {
    hide MachineInv, ValueHs, FoldValue;
    RunValue(cfg, m, data[p..r]);
  }

  /** No byte of the header limit is left. */
  lemma ValueFull(cfg: Config, m: Machine, data: seq<byte>, p: nat)
    requires MachineInv(cfg, m) && !Stopped(m) && ParsingHeader(m.f.state) && p < |data| && m.f.nread >= cfg.maxHeader
    ensures !Run(cfg, m, data[p..]).f.errno.OK?
  {
    hide Inv, Switch;
    RunOne(cfg, m, data, p);
    RunMore(cfg, m, data, p, p + 1);
  }

  /** Value bytes up to the header limit and one more byte. */
  lemma ValueOverrun(cfg: Config, m: Machine, data: seq<byte>, p: nat, r: nat)
    requires InValueRun(cfg, m, data, p) && p <= r < |data| && NoLineEndIn(data, p, r)
    requires m.f.nread + (r - p) >= cfg.maxHeader
    ensures !Run(cfg, m, data[p..]).f.errno.OK?
  {
    hide MachineInv, ValueHs, FoldValue, Step;
    RunValue(cfg, m, data[p..r]);
    RunMore(cfg, m, data, p, r);
    var n := Run(cfg, m, data[p..r]);
    if n.f.errno.OK? {
      ValueFull(cfg, n, data, r);
    }
  }

  lemma ValueTooLong(cfg: Config, m: Machine, data: seq<byte>, p: nat, g: Fields, r: nat)
    requires InValueRun(cfg, m, data, p) && p <= r <= |data| && Scanned(cfg, m.f, data, p, g, r)
    requires m.f.nread + (if r == |data| then r - p else r - p + 1) > cfg.maxHeader
    ensures !Run(cfg, m, data[p..]).f.errno.OK?
  {
    hide MachineInv, ValueHs, FoldValue, Step, Run;
    if r - p > cfg.maxHeader {
      ValueOverrun(cfg, m, data, p, p + cfg.maxHeader);
    } else if r < |data| {
      ValueOverrun(cfg, m, data, p, r);
    } else {
      RunValue(cfg, m, data[p..r]);
      assert data[p..r] == data[p..];
    }
  }

  lemma ValueRejected(cfg: Config, m: Machine, data: seq<byte>, p: nat, r: nat)
    requires InValueRun(cfg, m, data, p) && p <= r < |data| && Rejected(cfg, m.f, data, p, r)
    ensures !Run(cfg, m, data[p..]).f.errno.OK?
  {
    hide MachineInv, ValueHs, FoldValue, Step;
    if r - p < cfg.maxHeader {
      RunValue(cfg, m, data[p..r + 1]);
      RunMore(cfg, m, data, p, r + 1);
    } else {
      ValueOverrun(cfg, m, data, p, p + cfg.maxHeader);
    }
  }

  lemma StepValueEnd(cfg: Config, m: Machine, ch: byte)
    requires MachineInv(cfg, m) && !Stopped(m) && m.f.state.HeaderValue? && (ch == CR || ch == LF)
        && m.f.nread < cfg.maxHeader
    ensures Step(cfg, m, ch)
            == Machine(m.f.(state := if ch == CR then HeaderAlmostDone else HeaderValueLws, nread := m.f.nread + 1),
                       m.log, false)
  {
    hide Inv, MatchValue;
    CountedKeeps(m.f);
  }

  /** The line end after a value. */
  lemma ValueEnded(cfg: Config, m: Machine, data: seq<byte>, p: nat, g: Fields, r: nat)
    requires InValueRun(cfg, m, data, p) && p <= r < |data| && Scanned(cfg, m.f, data, p, g, r) && g.errno.OK?
    requires g.state.HeaderValue? && m.f.nread + (r - p) < cfg.maxHeader && (data[r] == CR || data[r] == LF)
    ensures var n := AfterValue(m, g, data[p..r]);
            Run(cfg, m, data[p..r + 1])
            == Machine(n.f.(state := if data[r] == CR then HeaderAlmostDone else HeaderValueLws,
                            nread := n.f.nread + 1), n.log, false)
  {
    hide MachineInv, Step, ValueHs, FoldValue, Scanned;
    ValueRan(cfg, m, data, p, g, r);
    var n := Run(cfg, m, data[p..r]);
    StepValueEnd(cfg, n, data[r]);
    RunOne(cfg, n, data, r);
    RunConcat(cfg, m, data[p..r], data[r..r + 1]);
    assert data[p..r] + data[r..r + 1] == data[p..r + 1];
  }

  /** The bytes of a value, as far as they are there, are marked. */
  lemma ValueMarked(cfg: Config, f: Fields, log: seq<Event>, marks: Marks, data: seq<byte>, p: nat, g: Fields, r: nat)
    requires p < |data| && marks.Keys == {KValue} && marks[KValue] <= p
    requires InValueRun(cfg, Machine(f, LogNow(log, marks, data, p), false), data, p)
    requires p <= r <= |data| && Scanned(cfg, f, data, p, g, r) && g.errno.OK? && f.nread + (r - p) <= cfg.maxHeader
    ensures Run(cfg, Machine(f, LogNow(log, marks, data, p), false), data[p..r])
         == Machine(g.(nread := f.nread + (r - p)), LogNow(log, marks, data, r), false)
  {
    hide MachineInv, LogNow, ValueHs, Run, Push, Scanned;
    ValueRan(cfg, Machine(f, LogNow(log, marks, data, p), false), data, p, g, r);
    Extend(log, KValue, marks, data, p, r);
  }

  /** The line end delivers them. */
  lemma ValueDone(cfg: Config, f: Fields, log: seq<Event>, marks: Marks, data: seq<byte>, p: nat, g: Fields, r: nat)
    requires p < |data| && marks.Keys == {KValue} && marks[KValue] <= p
    requires InValueRun(cfg, Machine(f, LogNow(log, marks, data, p), false), data, p)
    requires p <= r < |data| && Scanned(cfg, f, data, p, g, r) && g.errno.OK? && f.nread + (r - p) < cfg.maxHeader
    requires g.state.HeaderValue? && (data[r] == CR || data[r] == LF)
    ensures
      var l, rest := log + PendingOf(KValue, marks, data, r), marks - {KValue};
      && rest.Keys == {}
      && Run(cfg, Machine(f, LogNow(log, marks, data, p), false), data[p..r + 1])
         == Machine(g.(state := if data[r] == CR then HeaderAlmostDone else HeaderValueLws,
                       nread := f.nread + (r - p) + 1), LogNow(l, rest, data, r + 1), false)
  {
    hide MachineInv, LogNow, ValueHs, Run, Push, Scanned, PendingOf;
    ValueEnded(cfg, Machine(f, LogNow(log, marks, data, p), false), data, p, g, r);
    Extend(log, KValue, marks, data, p, r);
    DeliverLast(log, KValue, marks, data, r);
  }

  lemma ReadyContent(cfg: Config, m: Machine)
    requires MachineInv(cfg, m) && m.f.errno.OK? && InContent(m.f)
    ensures 0 < m.f.v.contentLength < NO_LENGTH && !m.f.v.ptype.Both? && m.f.index <= 17
  {
  }

  /** The message is not complete before its last byte. */
  lemma NotBefore(cfg: Config, m: Machine, data: seq<byte>, p: nat, q: nat)
    requires MachineInv(cfg, m) && !Stopped(m) && InContent(m.f) && p < q <= |data| && q - p <= m.f.v.contentLength
    ensures !Run(cfg, m, data[p..q - 1]).halted
  {
    hide MachineInv, Step;
    if p < q - 1 { RunContent(cfg, m, data[p..q - 1]); } else { assert data[p..q - 1] == []; }
  }

  lemma DeliverNotes(log: seq<Event>, a: seq<Event>, b: seq<Event>)
    ensures Joined(log + a + b) == PushAll(Joined(log + a), b)
  {
    PushAllConcat([], log + a, b);
  }

  /** The mark set on entry to a call covers nothing yet. */
  lemma EntryMarks(cfg: Config, f: Fields, log: seq<Event>, data: seq<byte>, marks: Marks)
    requires MachineInv(cfg, Machine(f, Joined(log), false)) && f.errno.OK?
    requires marks == if LiveOf(f.state).Some? then map[LiveOf(f.state).value := 0] else map[]
    ensures MarksOk(f.state, marks, 0) && LogNow(log, marks, data, 0) == Joined(log)
    ensures Run(cfg, Machine(f, Joined(log), false), data[..0]) == Machine(f, Joined(log), false)
  {
    hide Inv;
    assert data[..0] == [];
    if LiveOf(f.state).Some? {
      LogNowOne(log, LiveOf(f.state).value, marks, data, 0);
      PushNothing(Joined(log), LiveOf(f.state).value);
    } else {
      LogNowNone(log, marks, data, 0);
    }
  }

  lemma Failed(cfg: Config, m: Machine, data: seq<byte>, p: nat, h: Machine)
    requires MachineInv(cfg, m) && p <= |data| && Run(cfg, m, data[..p]) == h && !Run(cfg, h, data[p..]).f.errno.OK?
    ensures !Run(cfg, m, data).f.errno.OK?
  {
    hide MachineInv, Step;
    RunConcat(cfg, m, data[..p], data[p..]);
    assert data[..p] + data[p..] == data;
  }

  lemma Advance(cfg: Config, m: Machine, data: seq<byte>, p: nat, q: nat, h: Machine, stop: bool)
    requires MachineInv(cfg, m) && p < q <= |data| && Run(cfg, m, data[..p]) == h
    requires stop ==> !Run(cfg, h, data[p..q - 1]).halted
    ensures Run(cfg, m, data[..q]) == Run(cfg, h, data[p..q])
    ensures stop ==> !Run(cfg, m, data[..q - 1]).halted
  {
    hide MachineInv, Step;
    RunConcat(cfg, m, data[..p], data[p..q]);
    assert data[..p] + data[p..q] == data[..q];
    RunConcat(cfg, m, data[..p], data[p..q - 1]);
    assert data[..p] + data[p..q - 1] == data[..q - 1];
  }

  lemma StopsHere(cfg: Config, m: Machine, data: seq<byte>, p: nat)
    requires MachineInv(cfg, m) && p <= |data| && Run(cfg, m, data[..p]).halted
    ensures Run(cfg, m, data) == Run(cfg, m, data[..p])
  {
    hide MachineInv, Step;
    RunConcat(cfg, m, data[..p], data[p..]);
    assert data[..p] + data[p..] == data;
  }

  // ---- the parser ----

  class Parser {
    const cfg: Config
    var f: Fields
    var log: seq<Event>  // the callbacks made so far, each data callback with the bytes it delivered

    ghost predicate Valid()
      reads this
    {
      MachineInv(cfg, Abs())
    }

    /** The one-byte machine this parser stands for. */
    ghost function Abs(): Machine
      reads this
    {
      Machine(f, Joined(log), false)
    }

    /** The machine in the middle of a call, with the marked bytes counted as delivered. */
    ghost function Here(marks: Marks, data: seq<byte>, p: nat): Machine
      requires p <= |data| && forall k | k in marks :: marks[k] <= p
      reads this
    {
      Machine(f, LogNow(log, marks, data, p), false)
    }

    ghost predicate Ready(marks: Marks, data: seq<byte>, p: nat)
      requires p <= |data|
      reads this
    {
      MarksOk(f.state, marks, p) && f.errno.OK? && MachineInv(cfg, Here(marks, data, p))
    }

    /** `http_parser_init` */
    constructor (cfg: Config, t: ParserType)
      ensures Valid() && this.cfg == cfg && Abs() == Fresh(cfg, t) && log == []
    {
      this.cfg := cfg;
      f := Fields(if t.Request? then StartReq else if t.Response? then StartRes else StartReqOrRes,
                  HGeneral, 0, false, 0, OK, View(t, NO_FLAGS, 0, 0, 0, 0, DELETE, false));
      log := [];
    }

    /** What one turn of the loop has to do: the machine's steps on `data[p..q]`, or an error if it makes one. */
    ghost predicate Took(m: Machine, marks: Marks, data: seq<byte>, p: nat, q: nat, stop: bool)
      requires MachineInv(cfg, m) && p < |data|
      reads this
    {
      if f.errno.OK?
      then p < q <= |data| && MarksOk(f.state, marks, q)
           && Run(cfg, m, data[p..q]) == Machine(f, LogNow(log, marks, data, q), stop)
           && (stop ==> marks.Keys == {} && !Run(cfg, m, data[p..q - 1]).halted)
      else !Run(cfg, m, data[p..]).f.errno.OK?
    }

    /** An arm of the switch that takes one byte. */
    method TakeByte(data: seq<byte>, p: nat, marks: Marks) returns (q: nat, ms: Marks, stop: bool)
      requires p < |data| && Ready(marks, data, p) && cfg.maxHeader + |data| < TWO_32
      requires !f.state.HeaderField? && !f.state.HeaderValue?
      requires !f.state.ChunkData? && !f.state.BodyIdentity? && !f.state.BodyIdentityEof?
      modifies this`f, this`log
      ensures Took(old(Here(marks, data, p)), ms, data, p, q, stop)
      ensures !f.errno.OK? ==> Notices(log) == old(Notices(log))
    {
      hide Inv, Switch, LogNow, Record, Fire, Notices, Tail, Push;
      ghost var m := Here(marks, data, p);
      RunOne(cfg, m, data, p);
      RunMore(cfg, m, data, p, p + 1);
      assert data[p..p] == [];
      CountedKeeps(f);
      q, ms, stop := p, marks, false;
      var g := if ParsingHeader(f.state) then f.(nread := (f.nread + 1) % TWO_32) else f;
      if g.nread > cfg.maxHeader {
        f := g.(errno := HeaderOverflow);
        return;
      }
      var a := Switch(cfg, g, data[p]);
      if a.f.errno.OK? {
        FireByte(log, marks, data, p, g, a);
        var (l, x) := Fire(log, marks, data, p, a.e);
        q, log, ms, stop := p + 1, l, x, a.halt;
      } else if a.e.empty.Some? {
        NoticesOne(log, Data(a.e.empty.value, []));
        log := log + [Data(a.e.empty.value, [])];
      }
      f := a.f;
    }

    /** `s_header_field`: the bulk loop, and the colon that ends the name. */
    method TakeField(data: seq<byte>, p: nat, marks: Marks) returns (q: nat, ms: Marks)
      requires p < |data| && Ready(marks, data, p) && cfg.maxHeader + |data| < TWO_32
      requires f.state.HeaderField?
      modifies this`f, this`log
      ensures Took(old(Here(marks, data, p)), ms, data, p, q, false)
      ensures !f.errno.OK? ==> Notices(log) == old(Notices(log))
    {
      hide MachineInv, LogNow, FoldField, Token, FieldHs, Step, Run, Push, PushAll, Notices, PendingOf;
      ghost var m := Here(marks, data, p);
      ReadyField(cfg, m);
      q, ms := p, marks;
      var nread := (f.nread + 1) % TWO_32;
      if nread > cfg.maxHeader {
        FieldTooLong(cfg, m, data, p, p);
        f := f.(errno := HeaderOverflow);
        return;
      }
      var g, r := ScanField(cfg, f, data, p);
      nread := (nread + ((if r == |data| then r - 1 else r) - p)) % TWO_32;
      if nread > cfg.maxHeader {
        FieldTooLong(cfg, m, data, p, r);
        f := f.(errno := HeaderOverflow);
        return;
      }
      q, ms := EndField(data, p, marks, g, r, nread);
    }

    /** Behind the name, whose bytes up to `r` are read: nothing, the colon, or a byte that may not stand there. */
    method EndField(data: seq<byte>, p: nat, marks: Marks, g: Fields, r: nat, nread: nat) returns (q: nat, ms: Marks)
      requires p < |data| && marks.Keys == {KField} && marks[KField] <= p
      requires FieldRun(cfg, Here(marks, data, p), data, p, r) && g == FoldField(f, data[p..r])
      requires nread == f.nread + (if r == |data| then r - p else r - p + 1) <= cfg.maxHeader
      modifies this`f, this`log
      ensures Took(old(Here(marks, data, p)), ms, data, p, q, false)
      ensures !f.errno.OK? ==> log == old(log)
    {
      hide MachineInv, LogNow, FoldField, Token, TokensIn, FieldHs, Run, PendingOf;
      q, ms := r, marks;
      if r == |data| {
        FieldMarked(cfg, f, log, marks, data, p, r);
        f := g.(nread := nread);
        return;
      }
      FieldDone(cfg, f, log, marks, data, p, r);
      if data[r] != 58 /* : */ {
        f := f.(errno := InvalidHeaderToken);
        return;
      }
      log, ms := log + PendingOf(KField, marks, data, r), marks - {KField};
      f, q := g.(state := Discard(DiscardWs), nread := nread), r + 1;
    }

    /** `s_header_value`: the bulk loop, and the line end that ends the value. */
    method TakeValue(data: seq<byte>, p: nat, marks: Marks) returns (q: nat, ms: Marks)
      requires p < |data| && Ready(marks, data, p) && cfg.maxHeader + |data| < TWO_32
      requires f.state.HeaderValue?
      modifies this`f, this`log
      ensures Took(old(Here(marks, data, p)), ms, data, p, q, false)
      ensures !f.errno.OK? ==> Notices(log) == old(Notices(log))
    {
      hide MachineInv, LogNow, FoldValue, ValueHs, Step, Run, Push, PushAll, Scanned, Rejected, Notices, PendingOf;
      ghost var m := Here(marks, data, p);
      ReadyValue(cfg, m);
      q, ms := p, marks;
      var nread := (f.nread + 1) % TWO_32;
      if nread > cfg.maxHeader {
        ValueFull(cfg, m, data, p);
        f := f.(errno := HeaderOverflow);
        return;
      }
      var g, r := ScanValue(cfg, f, data, p);
      if !g.errno.OK? {
        ValueRejected(cfg, m, data, p, r);
        f, q := g, r;
        return;
      }
      nread := (nread + ((if r == |data| then r - 1 else r) - p)) % TWO_32;
      if nread > cfg.maxHeader {
        ValueTooLong(cfg, m, data, p, g, r);
        f := f.(errno := HeaderOverflow);
        return;
      }
      q, ms := EndValue(data, p, marks, g, r, nread);
    }

    /** Behind the value, of which all bytes up to `r` are read: nothing, or the line end. */
    method EndValue(data: seq<byte>, p: nat, marks: Marks, g: Fields, r: nat, nread: nat) returns (q: nat, ms: Marks)
      requires p < |data| && marks.Keys == {KValue} && marks[KValue] <= p && p <= r <= |data|
      requires InValueRun(cfg, Here(marks, data, p), data, p) && Scanned(cfg, f, data, p, g, r) && g.errno.OK?
      requires g.state.HeaderValue? && (r < |data| ==> data[r] == CR || data[r] == LF)
      requires nread == f.nread + (if r == |data| then r - p else r - p + 1) <= cfg.maxHeader
      modifies this`f, this`log
      ensures f.errno.OK? && Took(old(Here(marks, data, p)), ms, data, p, q, false)
    {
      hide MachineInv, LogNow, FoldValue, ValueHs, Run, Scanned, PendingOf;
      if r == |data| {
        ValueMarked(cfg, f, log, marks, data, p, g, r);
        f, q, ms := g.(nread := nread), r, marks;
        return;
      }
      ValueDone(cfg, f, log, marks, data, p, g, r);
      log, ms := log + PendingOf(KValue, marks, data, r), marks - {KValue};
      f, q := g.(state := if data[r] == CR then HeaderAlmostDone else HeaderValueLws, nread := nread), r + 1;
    }

    /** `s_chunk_data` and `s_body_identity`: as many bytes as there are, up to the length. */
    method TakeContent(data: seq<byte>, p: nat, marks: Marks) returns (q: nat, ms: Marks, stop: bool)
      requires p < |data| && Ready(marks, data, p)
      requires f.state.ChunkData? || f.state.BodyIdentity?
      modifies this`f, this`log
      ensures Took(old(Here(marks, data, p)), ms, data, p, q, stop) && f.errno.OK?
      ensures !f.errno.OK? ==> Notices(log) == old(Notices(log))
    {
      hide MachineInv, LogNow, Step, Run, Push, PushAll, OnMessageDone;
      ghost var m := Here(marks, data, p);
      ReadyContent(cfg, m);
      var toRead := Min(f.v.contentLength, |data| - p);
      assert f.v.contentLength != 0 && f.v.contentLength != NO_LENGTH;
      q, ms, stop := p + toRead, Mark(marks, KBody, p), false;
      ExtendBody(log, marks, data, p, q);
      if toRead < f.v.contentLength {
        RunContent(cfg, m, data[p..q]);
        f := Less(f, toRead);
      } else if f.state.ChunkData? {
        RunChunk(cfg, m, data[p..q]);
        f := Less(f, toRead).(state := ChunkDataAlmostDone);
      } else {
        RunIdentity(cfg, m, data[p..q]);
        NotBefore(cfg, m, data, p, q);
        var d := OnMessageDone(Less(f, toRead));
        PendingOne(KBody, ms, data, q);
        Deliver(log, ms, data, q);
        DeliverNotes(log, PendingOf(KBody, ms, data, q), NoteEvents(d.e.notes));
        log := log + PendingOf(KBody, ms, data, q) + NoteEvents(d.e.notes);
        f, ms, stop := d.f, ms - {KBody}, d.halt;
        LogNowNone(log, ms, data, q);
      }
    }

    /** `s_body_identity_eof`: all the bytes there are. */
    method TakeRest(data: seq<byte>, p: nat, marks: Marks) returns (q: nat, ms: Marks)
      requires p < |data| && Ready(marks, data, p) && f.state.BodyIdentityEof?
      ensures Took(Here(marks, data, p), ms, data, p, q, false)
    {
      hide MachineInv, LogNow, Step, Run, Push, PushAll;
      q, ms := |data|, Mark(marks, KBody, p);
      RunEof(cfg, Here(marks, data, p), data[p..q]);
      ExtendBody(log, marks, data, p, q);
    }

    /** One turn of the loop: the switch on the state, with its bulk arms. */
    method Turn(data: seq<byte>, p: nat, marks: Marks) returns (q: nat, ms: Marks, stop: bool)
      requires p < |data| && Ready(marks, data, p) && cfg.maxHeader + |data| < TWO_32
      modifies this`f, this`log
      ensures Took(old(Here(marks, data, p)), ms, data, p, q, stop)
      ensures !f.errno.OK? ==> Notices(log) == old(Notices(log))
    {
      hide MachineInv, LogNow, Run, MarksOk;
      stop := false;
      if f.state.HeaderField? {
        q, ms := TakeField(data, p, marks);
      } else if f.state.HeaderValue? {
        q, ms := TakeValue(data, p, marks);
      } else if f.state.ChunkData? || f.state.BodyIdentity? {
        q, ms, stop := TakeContent(data, p, marks);
      } else if f.state.BodyIdentityEof? {
        q, ms := TakeRest(data, p, marks);
      } else {
        q, ms, stop := TakeByte(data, p, marks);
      }
    }

    /** What a call with data does, in terms of the one-byte machine `m` the parser stood for before the call. */
    ghost predicate Parsed(m: Machine, data: seq<byte>, n: nat)
      requires MachineInv(cfg, m)
      reads this
    {
      var r := Run(cfg, m, data);
      if f.errno.OK?
      then r == Machine(f, Joined(log), r.halted) && n <= |data| && r == Run(cfg, m, data[..n])
           && (if r.halted then 0 < n && !Run(cfg, m, data[..n - 1]).halted else n == |data|)
      else !r.f.errno.OK? && exists k | 0 <= k <= |data| :: Reached(m, data[..k])
    }

    /** The notifications made are those of the machine on `data`, which it takes without an error. */
    ghost predicate Reached(m: Machine, data: seq<byte>)
      requires MachineInv(cfg, m)
      reads this
    {
      var r := Run(cfg, m, data);
      r.f.errno.OK? && Notices(log) == Notices(r.log)
    }

    /** A call without data means that the connection is closed. */
    ghost predicate AtEof(f0: Fields, log0: seq<Event>, n: nat)
      reads this
    {
      if f0.state.BodyIdentityEof? then n == 0 && f == f0 && log == log0 + [Notify(MessageComplete, f0.v)]
      else if Starting(f0.state) then n == 0 && f == f0 && log == log0
      else n == 1 && f == f0.(errno := InvalidEofState) && log == log0
    }

    method ExecuteEof() returns (parsed: nat)
      requires Valid() && f.errno.OK?
      modifies this`f, this`log
      ensures Valid() && AtEof(old(f), old(log), parsed)
    {
      hide Inv, Joined;
      if f.state.BodyIdentityEof? {
        log := log + [Notify(MessageComplete, f.v)];
        parsed := 0;
      } else if Starting(f.state) {
        parsed := 0;
      } else {
        f := f.(errno := InvalidEofState);
        parsed := 1;
      }
    }

    /** `http_parser_execute` */
    method Execute(data: seq<byte>) returns (parsed: nat)
      requires Valid() && cfg.maxHeader + |data| < TWO_32
      modifies this`f, this`log
      ensures Valid()
      ensures old(f.errno.OK?) && data != [] ==> Parsed(old(Abs()), data, parsed)
      ensures old(f.errno.OK?) && data == [] ==> AtEof(old(f), old(log), parsed)
      ensures !old(f.errno.OK?) ==> parsed == 0 && f == old(f) && log == old(log)
    {
      hide Inv, LogNow, Run, Step, PushAll;
      if !f.errno.OK? { return 0; }
      if data == [] {
        parsed := ExecuteEof();
        return;
      }
      ghost var m := Abs();
      var p, stop := 0, false;
      var marks: Marks := if LiveOf(f.state).Some? then map[LiveOf(f.state).value := 0] else map[];
      EntryMarks(cfg, f, log, data, marks);
      while p != |data| && !stop
        invariant p <= |data| && f.errno.OK? && MarksOk(f.state, marks, p)
        invariant Run(cfg, m, data[..p]) == Machine(f, LogNow(log, marks, data, p), stop)
        invariant stop ==> 0 < p && marks.Keys == {} && !Run(cfg, m, data[..p - 1]).halted
        decreases |data| - p, !stop
      {
        ghost var h := Here(marks, data, p);
        ghost var p0 := p;
        NoticesNow(log, marks, data, p);
        p, marks, stop := Turn(data, p, marks);
        if !f.errno.OK? {
          Failed(cfg, m, data, p0, h);
          assert Reached(m, data[..p0]);
          return p;
        }
        Advance(cfg, m, data, p0, p, h, stop);
      }
      Deliver(log, marks, data, p);
      if stop {
        PendingNone(marks, data, p);
        LogNowNone(log, marks, data, p);
        StopsHere(cfg, m, data, p);
      } else {
        assert data[..p] == data;
        log := log + Pending(marks, data, p);
      }
      parsed := p;
    }
  }
}
