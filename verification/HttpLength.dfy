/** Where the length of a message comes from: the digits of a Content-Length header in the log. */
module HttpLength {
  import opened Bytes
  import opened HttpTypes
  import opened HttpArms
  import opened HttpMachine
  import opened HttpBulk
  import opened HttpParser
  import opened HttpBodies
  import opened HttpNames

  // ---- a length in the log ----

  predicate AllBlank(s: seq<byte>) { forall i | 0 <= i < |s| :: s[i] == SP || s[i] == HT }

  /** A value is `k` digits that make the number `n`, and blanks behind them. */
  predicate LengthValue(value: seq<byte>, k: nat, n: nat) {
    0 < k <= |value| && AllDigits(value[..k]) && AllBlank(value[k..]) && Decimal(value[..k]) == n
  }

  predicate IsData(ev: Event, k: Kind) { ev.Data? && ev.kind == k }

  /** At `i` stands a field whose name is content-length in any case, and then its value. */
  predicate LengthAt(log: seq<Event>, i: nat, k: nat, n: nat) {
    && i + 1 < |log| && IsData(log[i], KField) && IsData(log[i + 1], KValue)
    && Lowered(log[i].bytes) == CONTENT_LENGTH && LengthValue(log[i + 1].bytes, k, n)
  }

  /** No message begins from `i` on. */
  predicate NoBegin(log: seq<Event>, i: nat) { forall j | i <= j < |log| :: !IsBegin(log[j]) }

  /** Among the first `hi` events there is a Content-Length header of the current message with the value `n`. */
  ghost predicate DeclaredIn(log: seq<Event>, hi: nat, n: nat) {
    exists i: nat, k: nat | i + 1 < hi :: LengthAt(log, i, k, n) && NoBegin(log, i)
  }

  ghost predicate Declared(log: seq<Event>, n: nat) { DeclaredIn(log, |log|, n) }

  /** Every report of complete headers with a length is preceded by the header that declares it. */
  ghost predicate HeadersDeclared(log: seq<Event>) {
    forall j | 0 <= j < |log| && IsHeadersComplete(log[j]) && log[j].view.flags.contentLength ::
      Declared(log[..j], log[j].view.contentLength)
  }

  // ---- adding events ----

  /** Data of kind `k` joins the last event or follows it; events before the last stay. */
  lemma PushKeeps(log: seq<Event>, ev: Event)
    ensures var l := Push(log, ev); |log| <= |l| && forall i | 0 <= i < |log| - 1 :: l[i] == log[i]
    ensures !(ev.Data? && EndsIn(log, ev.kind)) ==> Push(log, ev) == log + [ev]
    ensures forall i | 0 <= i < |Push(log, ev)| ::
              IsBegin(Push(log, ev)[i]) ==> (i < |log| && IsBegin(log[i])) || IsBegin(ev)
  {
  }

  lemma DeclaredPush(log: seq<Event>, hi: nat, n: nat, ev: Event)
    requires DeclaredIn(log, hi, n) && hi <= |log| && !IsBegin(ev)
    requires hi == |log| ==> !(IsData(ev, KValue) && EndsIn(log, KValue))
    ensures DeclaredIn(Push(log, ev), hi, n)
  {
    var l := Push(log, ev);
    var i: nat, k: nat :| i + 1 < hi && LengthAt(log, i, k, n) && NoBegin(log, i);
    PushKeeps(log, ev);
    assert l[i] == log[i];
    if i + 1 == |log| - 1 { assert EndsIn(log, KValue); }
    assert l[i + 1] == log[i + 1];
    assert LengthAt(l, i, k, n);
    assert NoBegin(l, i);
  }

  lemma HeadersPush(log: seq<Event>, ev: Event)
    requires HeadersDeclared(log)
    requires IsHeadersComplete(ev) && ev.view.flags.contentLength ==> Declared(log, ev.view.contentLength)
    ensures HeadersDeclared(Push(log, ev))
  {
    hide DeclaredIn;
    var l := Push(log, ev);
    PushKeeps(log, ev);
    forall j | 0 <= j < |l| && IsHeadersComplete(l[j]) && l[j].view.flags.contentLength
      ensures Declared(l[..j], l[j].view.contentLength)
    {
      if ev.Data? && EndsIn(log, ev.kind) {
        assert j < |log| - 1 && l[..j] == log[..j];
      } else if j < |log| {
        assert l[..j] == log[..j];
      } else {
        assert l[..j] == log;
      }
    }
  }

  // ---- the invariant of a head ----

  predicate LengthHs(hs: HeaderState) { hs.HContentLengthNum? || hs.HContentLengthWs? }

  /** The value under way is that of the length header; it has only digits as long as digits may follow. */
  ghost predicate LengthUnderWay(log: seq<Event>, hs: HeaderState, n: nat) {
    exists k: nat :: LengthLast(log, hs, k, n)
  }

  predicate LengthLast(log: seq<Event>, hs: HeaderState, k: nat, n: nat) {
    |log| >= 2 && LengthAt(log, |log| - 2, k, n) && (hs.HContentLengthNum? ==> k == |log[|log| - 1].bytes|)
  }

  ghost predicate LengthKnown(s: State, hs: HeaderState, log: seq<Event>, n: nat) {
    if InValue(s) then
      EndsIn(log, KValue) && if LengthHs(hs) then LengthUnderWay(log, hs, n) else DeclaredIn(log, |log| - 1, n)
    else Declared(log, n)
  }

  ghost predicate HeadInv(f: Fields, log: seq<Event>) {
    && (if InField(f.state) then EndsIn(log, KField) && NameRead(f.hs, f.index, log[|log| - 1].bytes)
        else !EndsIn(log, KField))
    && (InValue(f.state) ==> EndsIn(log, KValue))
    && (f.v.flags.contentLength ==> InHeaders(f.state) && LengthKnown(f.state, f.hs, log, f.v.contentLength))
  }

  ghost predicate LengthInv(m: Machine) {
    && HeadersDeclared(m.log)
    && (m.f.errno.OK? && InHead(m.f.state) ==> HeadInv(m.f, m.log))
  }

  // ---- names ----

  lemma StepsName(f: Fields, log: seq<Event>, ch: byte)
    requires f.state.HeaderField? && FieldHs(f.hs) && Token(ch) != 0 && HeadInv(f, log) && HeadersDeclared(log)
    ensures var l := Push(log, Data(KField, [ch])); HeadInv(MatchField(f, ch), l) && HeadersDeclared(l)
  {
    hide NameRead, DeclaredIn, MatchField, Token, HeadersDeclared;
    var ev := Data(KField, [ch]);
    NameGoesOn(f, log[|log| - 1].bytes, ch);
    if f.v.flags.contentLength {
      DeclaredPush(log, |log|, f.v.contentLength, ev);
    }
    HeadersPush(log, ev);
  }

  /** The name behind the colon is kept until the value begins. */
  lemma NameKept(f: Fields, g: Fields, log: seq<Event>)
    requires InField(f.state) && g.state.Discard? && HeadInv(f, log)
    requires g.hs == f.hs && g.index == f.index && g.v == f.v
    ensures HeadInv(g, log)
  {
  }

  // ---- values ----

  lemma DecimalOne(ch: byte)
    requires IsNum(ch)
    ensures LengthValue([ch], 1, ch - 48)
  {
    var d := [ch];
    assert d[..1] == d && d[1..] == [] && d[..0] == [];
  }

  lemma ValueDigit(value: seq<byte>, n: nat, ch: byte)
    requires LengthValue(value, |value|, n) && IsNum(ch)
    ensures LengthValue(value + [ch], |value| + 1, n * 10 + (ch - 48))
  {
    var v := value + [ch];
    assert value[..|value|] == value && v[..|v|] == v && v[..|v| - 1] == value && v[|v|..] == [];
  }

  lemma ValueBlank(value: seq<byte>, k: nat, n: nat, ch: byte)
    requires LengthValue(value, k, n) && (ch == SP || ch == HT)
    ensures LengthValue(value + [ch], k, n)
  {
    var v := value + [ch];
    assert v[..k] == value[..k] && v[k..] == value[k..] + [ch];
  }

  /** A digit or a blank of the length header. */
  lemma LengthGoesOn(log: seq<Event>, hs: HeaderState, n: nat, ch: byte, hs2: HeaderState, n2: nat)
    requires LengthUnderWay(log, hs, n) && LengthHs(hs) && LengthHs(hs2)
    requires
      || (hs.HContentLengthNum? && hs2 == hs && IsNum(ch) && n2 == n * 10 + (ch - 48))
      || (hs2.HContentLengthWs? && (ch == SP || ch == HT) && n2 == n)
    ensures LengthUnderWay(Push(log, Data(KValue, [ch])), hs2, n2)
  {
    var l := Push(log, Data(KValue, [ch]));
    var k: nat :| LengthLast(log, hs, k, n);
    var value := log[|log| - 1].bytes;
    assert l[|l| - 2] == log[|log| - 2] && l[|l| - 1] == Data(KValue, value + [ch]);
    if hs2.HContentLengthNum? {
      ValueDigit(value, n, ch);
      assert LengthLast(l, hs2, k + 1, n2);
    } else {
      ValueBlank(value, k, n, ch);
      assert LengthLast(l, hs2, k, n2);
    }
  }

  /** Seen from behind it, a length under way is a declared one. */
  lemma UnderWayDeclared(log: seq<Event>, hs: HeaderState, n: nat)
    requires LengthUnderWay(log, hs, n)
    ensures Declared(log, n)
  {
    var k: nat :| LengthLast(log, hs, k, n);
    assert NoBegin(log, |log| - 2);
  }

  lemma DeclaredMore(log: seq<Event>, lo: nat, hi: nat, n: nat)
    requires DeclaredIn(log, lo, n) && lo <= hi
    ensures DeclaredIn(log, hi, n)
  {
  }

  /** Behind a value, whatever its header, the length is declared. */
  lemma KnownBehind(s: State, hs: HeaderState, log: seq<Event>, n: nat)
    requires LengthKnown(s, hs, log, n)
    ensures Declared(log, n)
  {
    if InValue(s) {
      if LengthHs(hs) { UnderWayDeclared(log, hs, n); } else { DeclaredMore(log, |log| - 1, |log|, n); }
    }
  }

  lemma StepsValue(f: Fields, log: seq<Event>, ch: byte)
    requires f.state.HeaderValue? && Inv(f) && HeadInv(f, log) && HeadersDeclared(log)
    requires ValueByte(f, ch).errno.OK?
    ensures var l := Push(log, Data(KValue, [ch])); HeadInv(ValueByte(f, ch), l) && HeadersDeclared(l)
  {
    hide DeclaredIn, LengthUnderWay, HeadersDeclared, ValueNext, ValueIndex, MatchToken;
    var ev := Data(KValue, [ch]);
    var g := ValueByte(f, ch);
    HeadersPush(log, ev);
    if f.v.flags.contentLength {
      if LengthHs(f.hs) {
        LengthGoesOn(log, f.hs, f.v.contentLength, ch, g.hs, g.v.contentLength);
      } else {
        DeclaredPush(log, |log| - 1, f.v.contentLength, ev);
        PushJoins(log, KValue, [ch]);
      }
    }
  }

  lemma PushJoins(log: seq<Event>, k: Kind, bytes: seq<byte>)
    requires EndsIn(log, k)
    ensures |Push(log, Data(k, bytes))| == |log|
  {
  }

  /** A value ends, or its line does. */
  lemma ValueKept(f: Fields, g: Fields, log: seq<Event>)
    requires InValue(f.state) && InValue(g.state) && HeadInv(f, log) && g.hs == f.hs && g.v == f.v
    ensures HeadInv(g, log)
  {
    hide LengthUnderWay, DeclaredIn;
  }

  /** The first byte of a value, or of its continuation on a folded line. */
  lemma StepsValueStart(f: Fields, hs: HeaderState, log: seq<Event>, ch: byte)
    requires f.state.Discard? || f.state.HeaderValueLws?
    requires Inv(f) && HeadInv(f, log) && HeadersDeclared(log)
    requires if f.state.Discard? then hs == f.hs else (ch == SP || ch == HT) && hs == Folded(f.hs)
    requires OnValueStart(f, hs, ch).f.errno.OK?
    ensures var l := Push(log, Data(KValue, [ch])); HeadInv(OnValueStart(f, hs, ch).f, l) && HeadersDeclared(l)
  {
    hide DeclaredIn, LengthUnderWay, HeadersDeclared, NameRead;
    var ev := Data(KValue, [ch]);
    var g := OnValueStart(f, hs, ch).f;
    assert hs.HContentLengthWs? ==> g.hs == hs;
    hide ValueStartHs;
    HeadersPush(log, ev);
    PushKeeps(log, ev);
    if hs.HContentLength? {
      LengthBegins(f, log, ch);
    } else if f.v.flags.contentLength {
      if f.state.Discard? {
        DeclaredPush(log, |log|, f.v.contentLength, ev);
      } else if LengthHs(f.hs) {
        LengthGoesOn(log, f.hs, f.v.contentLength, ch, g.hs, g.v.contentLength);
      } else {
        DeclaredPush(log, |log| - 1, f.v.contentLength, ev);
        PushJoins(log, KValue, [ch]);
      }
    }
  }

  /** A length that is continued can have no more digits. */
  function Folded(hs: HeaderState): HeaderState { if hs.HContentLengthNum? then HContentLengthWs else hs }

  lemma LengthBegins(f: Fields, log: seq<Event>, ch: byte)
    requires f.state.Discard? && f.hs.HContentLength? && HeadInv(f, log) && IsNum(ch)
    ensures LengthUnderWay(Push(log, Data(KValue, [ch])), HContentLengthNum, ch - 48)
  {
    var l := Push(log, Data(KValue, [ch]));
    NamesRecognised(Lowered(log[|log| - 1].bytes));
    DecimalOne(ch);
    assert l == log + [Data(KValue, [ch])];
    assert LengthLast(l, HContentLengthNum, 1, ch - 48);
  }

  // ---- the beginning and the end of a header ----

  /** What the byte at the beginning of a header line does: a name, the last line, or the end of the head. */
  predicate FieldStartOk(f: Fields, ch: byte, a: Arm) {
    || (Token(ch) != 0 && a.e == NONE.(open := Some(KField)) && a.f.state.HeaderField? && a.f.v == f.v
        && a.f.index == 0 && a.f.hs == FirstHs(Token(ch)))
    || (a.e == NONE && a.f.state.HeadersAlmostDone? && a.f.v == f.v)
    || (!InHead(a.f.state) && a.e == NONE.(notes := a.e.notes) && EndOk(f.v, a.e.notes))
  }

  /** The notifications at the end of a head show its length. */
  predicate EndOk(v: View, notes: Notes) {
    match notes
    case Silent => false
    case Once(n, w) => n.HeadersComplete? && SameLength(v, w)
    case Twice(n, w, o, _) => (n.ChunkComplete? || (n.HeadersComplete? && SameLength(v, w))) && o.MessageComplete?
  }

  predicate SameLength(v: View, w: View) {
    w.flags.contentLength == v.flags.contentLength && w.contentLength == v.contentLength
  }

  lemma HeadEnds(cfg: Config, f: Fields, ch: byte)
    requires (f.state.HeadersAlmostDone? || f.state.HeaderFieldStart?) && Inv(f)
    ensures
      var a := OnHeadersAlmostDone(cfg, f, ch);
      a.f.errno.OK? ==> !InHead(a.f.state) && a.e == NONE.(notes := a.e.notes) && EndOk(f.v, a.e.notes)
  {
    hide Inv, OnMessageDone, OnHeadersDone;
  }

  lemma FieldStarts(cfg: Config, f: Fields, ch: byte)
    requires f.state.HeaderFieldStart? && Inv(f)
    ensures var a := OnFieldStart(cfg, f, ch); a.f.errno.OK? ==> FieldStartOk(f, ch, a)
  {
    HeadEnds(cfg, f, ch);
    hide Inv, OnHeadersAlmostDone, FirstHs;
  }

  /** The log with which a header line begins. */
  ghost predicate BetweenHeaders(v: View, log: seq<Event>) {
    !EndsIn(log, KField) && HeadersDeclared(log) && (v.flags.contentLength ==> Declared(log, v.contentLength))
  }

  lemma NotesDeclared(v: View, log: seq<Event>, notes: Notes)
    requires BetweenHeaders(v, log) && EndOk(v, notes)
    ensures HeadersDeclared(PushAll(log, NoteEvents(notes)))
  {
    hide DeclaredIn, HeadersDeclared;
    match notes
    case Once(n, w) =>
      PushAllOne(log, Notify(n, w));
      HeadersPush(log, Notify(n, w));
    case Twice(n, w, o, x) =>
      PushAllTwo(log, Notify(n, w), Notify(o, x));
      HeadersPush(log, Notify(n, w));
      HeadersPush(Push(log, Notify(n, w)), Notify(o, x));
  }

  /** After the first byte of a header line, whose arm may also report an empty value. */
  lemma AfterFieldStart(f: Fields, log: seq<Event>, ch: byte, a: Arm, halted: bool)
    requires BetweenHeaders(f.v, log) && FieldStartOk(f, ch, a) && a.f.errno.OK?
    ensures LengthInv(Machine(a.f, Record(log, None, a.e, ch), halted))
  {
    hide DeclaredIn, HeadersDeclared, NameRead;
    if a.f.state.HeaderField? {
      var ev := Data(KField, [ch]);
      NameBegins(ch);
      PushKeeps(log, ev);
      HeadersPush(log, ev);
      if f.v.flags.contentLength {
        DeclaredPush(log, |log|, f.v.contentLength, ev);
        DeclaredMore(Push(log, ev), |log|, |log| + 1, f.v.contentLength);
      }
    } else if !a.f.state.HeadersAlmostDone? {
      NotesDeclared(f.v, log, a.e.notes);
      assert Record(log, None, a.e, ch) == PushAll(log, NoteEvents(a.e.notes));
    } else {
      assert Record(log, None, a.e, ch) == log;
    }
  }

  // ---- one byte, state by state ----

  lemma StepInField(cfg: Config, m: Machine, ch: byte)
    requires MachineInv(cfg, m) && !Stopped(m) && m.f.state.HeaderField? && LengthInv(m) && Step(cfg, m, ch).f.errno.OK?
    ensures LengthInv(Step(cfg, m, ch))
  {
    hide Step, HeadersDeclared, DeclaredIn, NameRead, Inv;
    InvField(m.f);
    if Token(ch) != 0 {
      StepField(cfg, m, ch);
      StepsName(m.f, m.log, ch);
      CounterOnly(MatchField(m.f, ch), m.f.nread + 1, Push(m.log, Data(KField, [ch])));
    } else {
      BelowLimit(cfg, m, ch);
      StepFieldEnd(cfg, m, ch);
      NameKept(m.f, Step(cfg, m, ch).f, m.log);
    }
  }

  /** The byte counter has no part in this. */
  lemma CounterOnly(f: Fields, n: nat, log: seq<Event>)
    requires HeadInv(f, log)
    ensures HeadInv(f.(nread := n), log)
  {
    hide DeclaredIn, NameRead, LengthUnderWay;
  }

  lemma BelowLimit(cfg: Config, m: Machine, ch: byte)
    requires MachineInv(cfg, m) && !Stopped(m) && ParsingHeader(m.f.state) && Step(cfg, m, ch).f.errno.OK?
    ensures m.f.nread < cfg.maxHeader
  {
    hide Inv, Switch, Record;
    CountedKeeps(m.f);
  }

  lemma StepInValue(cfg: Config, m: Machine, ch: byte)
    requires MachineInv(cfg, m) && !Stopped(m) && m.f.state.HeaderValue? && LengthInv(m) && Step(cfg, m, ch).f.errno.OK?
    ensures LengthInv(Step(cfg, m, ch))
  {
    hide Step, HeadersDeclared, HeadInv, LengthKnown;
    ReadyValue(cfg, m);
    BelowLimit(cfg, m, ch);
    if ch != CR && ch != LF {
      StepValue(cfg, m, ch);
      StepsValue(m.f, m.log, ch);
      CounterOnly(ValueByte(m.f, ch), m.f.nread + 1, Push(m.log, Data(KValue, [ch])));
    } else {
      StepValueEnd(cfg, m, ch);
      ValueKept(m.f, Step(cfg, m, ch).f, m.log);
    }
  }

  /** The log once a header is over: that of a value, or of a name whose empty value is now reported. */
  lemma HeaderOver(f: Fields, log: seq<Event>)
    requires (f.state.Discard? || f.state.HeaderValueLws?) && HeadInv(f, log) && HeadersDeclared(log)
    ensures BetweenHeaders(f.v, if f.state.Discard? then Push(log, Data(KValue, [])) else log)
  {
    hide HeadersDeclared, DeclaredIn, NameRead, LengthUnderWay;
    if f.v.flags.contentLength { KnownBehind(f.state, f.hs, log, f.v.contentLength); }
    if f.state.Discard? {
      var ev := Data(KValue, []);
      HeadersPush(log, ev);
      PushKeeps(log, ev);
      if f.v.flags.contentLength {
        DeclaredPush(log, |log|, f.v.contentLength, ev);
        DeclaredMore(Push(log, ev), |log|, |log| + 1, f.v.contentLength);
      }
    }
  }

  lemma DoneKeepsLength(f: Fields)
    requires Inv(f) && (InValue(f.state) || f.state.Discard?)
    ensures SameLength(f.v, HeaderDone(f).v)
  {
    hide Inv, SetFlag;
    FlagKeepsLength(f.v.flags, f.hs);
  }

  lemma FlagKeepsLength(flags: Flags, hs: HeaderState)
    ensures SetFlag(flags, hs).contentLength == flags.contentLength
    ensures SetFlag(flags, hs).trailing == flags.trailing
  {
    match hs
    case HConnectionKeepAlive =>
    case HConnectionClose =>
    case HConnectionUpgrade =>
    case HTransferEncodingChunked =>
    case _ =>
  }

  /** Which arm a state in or in front of the headers has. */
  lemma ArmOf(cfg: Config, f: Fields, ch: byte)
    requires Inv(f) && (f.state.ChunkSizeStart? ==> f.nread == 1)
    ensures f.state.HeaderFieldStart? ==> Switch(cfg, f, ch) == OnFieldStart(cfg, f, ch)
    ensures f.state.Discard? ==> Switch(cfg, f, ch) == OnDiscard(cfg, f, ch)
    ensures f.state.HeaderAlmostDone? || f.state.HeaderValueLws? ==> Switch(cfg, f, ch) == OnAfterValue(cfg, f, ch)
    ensures f.state.HeadersAlmostDone? ==> Switch(cfg, f, ch) == OnHeadersAlmostDone(cfg, f, ch)
    ensures !InHeaders(f.state) && !InBody(f.state) ==> Switch(cfg, f, ch) == OnStartLine(f, ch)
  {
    hide Inv, OnFieldStart, OnDiscard, OnAfterValue, OnHeadersAlmostDone, OnStartLine, Good;
  }

  lemma BetweenSame(v: View, w: View, log: seq<Event>)
    requires BetweenHeaders(v, log) && SameLength(v, w)
    ensures BetweenHeaders(w, log)
  {
  }

  lemma StepAtFieldStart(cfg: Config, m: Machine, ch: byte)
    requires MachineInv(cfg, m) && !Stopped(m) && m.f.state.HeaderFieldStart? && LengthInv(m)
        && Step(cfg, m, ch).f.errno.OK?
    ensures LengthInv(Step(cfg, m, ch))
  {
    hide Step, Switch, Inv, OnFieldStart, HeadersDeclared, DeclaredIn, Record, FieldStartOk;
    StepTaken(cfg, m, ch);
    var f := Counted(m.f);
    ArmOf(cfg, f, ch);
    var a := OnFieldStart(cfg, f, ch);
    FieldStarts(cfg, f, ch);
    AfterFieldStart(f, m.log, ch, a, a.halt);
  }

  /** The byte behind a header that is over: like any first byte of a header line, on the log of that header. */
  lemma NextLine(cfg: Config, f: Fields, log: seq<Event>, ch: byte, halted: bool)
    requires (f.state.Discard? || f.state.HeaderValueLws?) && Inv(f) && HeadInv(f, log) && HeadersDeclared(log)
    ensures
      var a := OnFieldStart(cfg, HeaderDone(f), ch);
      var l := if f.state.Discard? then Push(log, Data(KValue, [])) else log;
      a.f.errno.OK? ==> LengthInv(Machine(a.f, Record(l, None, a.e, ch), halted))
  {
    hide HeadInv, HeadersDeclared, DeclaredIn, Record, OnFieldStart, FieldStartOk, HeaderDone, BetweenHeaders;
    var g := HeaderDone(f);
    var l := if f.state.Discard? then Push(log, Data(KValue, [])) else log;
    HeaderOver(f, log);
    DoneKeepsLength(f);
    BetweenSame(f.v, g.v, l);
    FieldStarts(cfg, g, ch);
    var a := OnFieldStart(cfg, g, ch);
    if a.f.errno.OK? { AfterFieldStart(g, l, ch, a, halted); }
  }

  lemma StepInDiscard(cfg: Config, m: Machine, ch: byte)
    requires MachineInv(cfg, m) && !Stopped(m) && m.f.state.Discard? && LengthInv(m) && Step(cfg, m, ch).f.errno.OK?
    ensures LengthInv(Step(cfg, m, ch))
  {
    hide Step, Switch, Inv, OnFieldStart, OnValueStart, HeadersDeclared, DeclaredIn, HeadInv, HeaderDone;
    StepTaken(cfg, m, ch);
    var f := Counted(m.f);
    CounterOnly(m.f, f.nread, m.log);
    ArmOf(cfg, f, ch);
    var a := OnDiscard(cfg, f, ch);
    if f.state.d.DiscardWs? && !(ch == SP || ch == HT || ch == CR || ch == LF) {
      StepsValueStart(f, f.hs, m.log, ch);
    } else if f.state.d.DiscardLws? && !(ch == SP || ch == HT) {
      NextLine(cfg, f, m.log, ch, a.halt);
    } else {
      NameKept(f, a.f, m.log);
    }
  }

  lemma StepBehindValue(cfg: Config, m: Machine, ch: byte)
    requires MachineInv(cfg, m) && !Stopped(m) && (m.f.state.HeaderAlmostDone? || m.f.state.HeaderValueLws?)
    requires LengthInv(m) && Step(cfg, m, ch).f.errno.OK?
    ensures LengthInv(Step(cfg, m, ch))
  {
    hide Step, Switch, Inv, OnFieldStart, OnValueStart, HeadersDeclared, DeclaredIn, HeadInv, HeaderDone, Good,
        Notices, Push;
    StepTaken(cfg, m, ch);
    var f := Counted(m.f);
    CounterOnly(m.f, f.nread, m.log);
    ArmOf(cfg, f, ch);
    var a := OnAfterValue(cfg, f, ch);
    if f.state.HeaderAlmostDone? {
      ValueKept(f, a.f, m.log);
    } else if ch == SP || ch == HT {
      StepsValueStart(f, Folded(f.hs), m.log, ch);
    } else {
      NextLine(cfg, f, m.log, ch, a.halt);
    }
  }

  lemma StepAtHeadEnd(cfg: Config, m: Machine, ch: byte)
    requires MachineInv(cfg, m) && !Stopped(m) && m.f.state.HeadersAlmostDone? && LengthInv(m)
        && Step(cfg, m, ch).f.errno.OK?
    ensures LengthInv(Step(cfg, m, ch))
  {
    hide Step, Switch, Inv, OnHeadersAlmostDone, HeadersDeclared, DeclaredIn;
    StepTaken(cfg, m, ch);
    var f := Counted(m.f);
    ArmOf(cfg, f, ch);
    var a := OnHeadersAlmostDone(cfg, f, ch);
    HeadEnds(cfg, f, ch);
    NotesDeclared(f.v, m.log, a.e.notes);
    assert Record(m.log, None, a.e, ch) == PushAll(m.log, NoteEvents(a.e.notes));
  }

  // ---- the first line ----

  /** A byte of the first line makes no notification but the one that a message begins, and sets no length. */
  predicate FirstLineOk(f: Fields, a: Arm) {
    if Starting(f.state) then
      || (a.e == NONE && a.f.state == f.state)
      || (a.e == NONE.(notes := a.e.notes) && a.e.notes.Once? && a.e.notes.note.MessageBegin? && FirstLine(a.f))
    else
      && a.e.notes.Silent? && !a.e.body && FirstLine(a.f)
      && a.e.empty != Some(KField) && a.e.open != Some(KField)
  }

  predicate FirstLine(f: Fields) {
    InHead(f.state) && (!InHeaders(f.state) || f.state.HeaderFieldStart?) && !f.v.flags.contentLength
  }

  lemma StartFirstLine(f: Fields, ch: byte)
    requires Starting(f.state) && Inv(f)
    ensures var a := OnStartLine(f, ch); a.f.errno.OK? ==> FirstLineOk(f, a)
  {
    hide FirstGuess, NotesOk, Fits, IndexOk, LayerOk, LengthOk, TypeOk;
  }

  lemma RestOfRequestLine(f: Fields, ch: byte)
    requires FirstLine(f) && Inv(f)
    requires f.state.ReqMethod? || f.state.ReqSpacesBeforeUrl? || f.state.Url? || f.state.ReqVersion?
    ensures var a := OnStartLine(f, ch); a.f.errno.OK? ==> FirstLineOk(f, a)
  {
    hide Regress, UrlNext, UrlFirst, NotesOk, Fits, IndexOk, LayerOk, LengthOk, TypeOk, WithVersion, MethodName;
  }

  lemma StatusVersion(f: Fields, ch: byte)
    requires FirstLine(f) && Inv(f) && (f.state.ResOrRespH? || f.state.ResVersion?)
    ensures var a := OnStartLine(f, ch); a.f.errno.OK? ==> FirstLineOk(f, a)
  {
    hide NotesOk, Fits, IndexOk, LayerOk, LengthOk, TypeOk, OnStatusCode, OnStatusStart, OnStatus, OnMethod, OnUrl,
      OnReqVersion;
  }

  lemma StatusText(f: Fields, ch: byte)
    requires FirstLine(f) && Inv(f) && (f.state.ResStatusCode? || f.state.ResStatusStart? || f.state.ResStatus?)
    ensures var a := OnStartLine(f, ch); a.f.errno.OK? ==> FirstLineOk(f, a)
  {
    hide NotesOk, Fits, IndexOk, LayerOk, LengthOk, TypeOk, OnResVersion, OnMethod, OnUrl, OnReqVersion;
  }

  lemma FirstLineArm(f: Fields, ch: byte)
    requires FirstLine(f) && Inv(f) && !InHeaders(f.state)
    ensures var a := OnStartLine(f, ch); a.f.errno.OK? ==> FirstLineOk(f, a)
  {
    hide Inv, OnStartLine, FirstLineOk;
    if f.state.ReqMethod? || f.state.ReqSpacesBeforeUrl? || f.state.Url? || f.state.ReqVersion? {
      RestOfRequestLine(f, ch);
    } else if f.state.ResOrRespH? || f.state.ResVersion? {
      StatusVersion(f, ch);
    } else {
      StatusText(f, ch);
    }
  }

  lemma StepAtStart(cfg: Config, m: Machine, ch: byte)
    requires MachineInv(cfg, m) && !Stopped(m) && LengthInv(m) && Step(cfg, m, ch).f.errno.OK? && Starting(m.f.state)
    ensures LengthInv(Step(cfg, m, ch))
  {
    hide Step, Switch, Inv, OnStartLine, HeadersDeclared, DeclaredIn, Good, NameRead, Push;
    StepTaken(cfg, m, ch);
    var f := Counted(m.f);
    ArmOf(cfg, f, ch);
    var a := OnStartLine(f, ch);
    StartFirstLine(f, ch);
    if a.e.notes.Once? {
      var ev := Notify(a.e.notes.note, a.e.notes.view);
      PushAllOne(m.log, ev);
      HeadersPush(m.log, ev);
      PushKeeps(m.log, ev);
    }
  }

  lemma StepInFirstLine(cfg: Config, m: Machine, ch: byte)
    requires MachineInv(cfg, m) && !Stopped(m) && LengthInv(m) && Step(cfg, m, ch).f.errno.OK?
    requires InHead(m.f.state) && !InHeaders(m.f.state)
    ensures LengthInv(Step(cfg, m, ch))
  {
    hide Step, Switch, Inv, OnStartLine, HeadersDeclared, DeclaredIn, Good, NameRead, Record;
    StepTaken(cfg, m, ch);
    var f := Counted(m.f);
    ArmOf(cfg, f, ch);
    var a := OnStartLine(f, ch);
    FirstLineArm(f, ch);
    FirstLineLog(m.log, LiveOf(m.f.state), a.e, ch);
  }

  lemma FirstLineLog(log: seq<Event>, live: Option<Kind>, e: Effect, ch: byte)
    requires HeadersDeclared(log) && !EndsIn(log, KField) && live != Some(KField)
    requires e.notes.Silent? && !e.body && e.empty != Some(KField) && e.open != Some(KField)
    ensures var l := Record(log, live, e, ch); HeadersDeclared(l) && !EndsIn(l, KField)
  {
    hide HeadersDeclared;
    var l1 := if e.empty.Some? then Push(log, Data(e.empty.value, [])) else log;
    if e.empty.Some? { HeadersPush(log, Data(e.empty.value, [])); }
    if e.open.Some? { HeadersPush(l1, Data(e.open.value, [ch])); }
    else if live.Some? && e.close.None? { HeadersPush(l1, Data(live.value, [ch])); }
  }

  // ---- bodies ----

  predicate BodyOk(f: Fields, a: Arm) {
    && a.e == NONE.(body := a.e.body, close := a.e.close, notes := a.e.notes) && !a.e.notes.Twice?
    && (a.e.notes.Once? ==> !a.e.notes.note.HeadersComplete?)
    && (InHead(a.f.state) ==> a.f.state.HeaderFieldStart? && !a.f.v.flags.contentLength && a.e.notes.Once?)
  }

  lemma ChunkLineArm(f: Fields, ch: byte)
    requires InChunkLine(f.state) && Inv(f) && (f.state.ChunkSizeStart? ==> f.nread == 1)
    ensures var a := OnChunkLine(f, ch); a.f.errno.OK? ==> BodyOk(f, a)
  {
    hide NotesOk, Fits, IndexOk, LayerOk, TypeOk, Unhex;
  }

  lemma ContentArm(f: Fields, ch: byte)
    requires (f.state.ChunkData? || f.state.ChunkDataAlmostDone? || f.state.ChunkDataDone?) && Inv(f)
    ensures var a := OnChunkContent(f, ch); a.f.errno.OK? ==> BodyOk(f, a)
  {
    hide NotesOk, Fits, IndexOk, LayerOk, TypeOk;
  }

  lemma IdentityArm(f: Fields, ch: byte)
    requires (f.state.BodyIdentity? || f.state.BodyIdentityEof?) && Inv(f)
    ensures BodyOk(f, OnIdentity(f, ch))
  {
    hide OnMessageDone, NotesOk, Fits, IndexOk, LayerOk, TypeOk;
  }

  lemma BodyArm(cfg: Config, f: Fields, ch: byte)
    requires InBody(f.state) && Inv(f) && (f.state.ChunkSizeStart? ==> f.nread == 1)
    ensures var a := Switch(cfg, f, ch); a.f.errno.OK? ==> BodyOk(f, a)
  {
    hide Inv, BodyOk, OnChunkLine, OnChunkContent, OnIdentity;
    if InChunkLine(f.state) { ChunkLineArm(f, ch); }
    else if InChunk(f.state) { ContentArm(f, ch); }
    else { IdentityArm(f, ch); }
  }

  lemma BodyLog(log: seq<Event>, live: Option<Kind>, e: Effect, ch: byte)
    requires HeadersDeclared(log) && live.None? && !e.notes.Twice?
    requires e == NONE.(body := e.body, close := e.close, notes := e.notes)
    requires e.notes.Once? ==> !e.notes.note.HeadersComplete?
    ensures var l := Record(log, live, e, ch); HeadersDeclared(l) && (e.notes.Once? ==> !EndsIn(l, KField))
  {
    hide HeadersDeclared;
    var l2 := if e.body then Push(log, Data(KBody, [ch])) else log;
    if e.body { HeadersPush(log, Data(KBody, [ch])); }
    if e.notes.Once? {
      var ev := Notify(e.notes.note, e.notes.view);
      PushAllOne(l2, ev);
      HeadersPush(l2, ev);
      PushKeeps(l2, ev);
    }
  }

  lemma StepInBody(cfg: Config, m: Machine, ch: byte)
    requires MachineInv(cfg, m) && !Stopped(m) && InBody(m.f.state) && LengthInv(m) && Step(cfg, m, ch).f.errno.OK?
    ensures LengthInv(Step(cfg, m, ch))
  {
    StepTaken(cfg, m, ch);
    var f := Counted(m.f);
    hide Step, Inv, Switch, HeadersDeclared, DeclaredIn, Good, NameRead, Record;
    var a := Switch(cfg, f, ch);
    BodyArm(cfg, f, ch);
    BodyLog(m.log, LiveOf(m.f.state), a.e, ch);
  }

  // ---- any byte, any run ----

  lemma StepLength(cfg: Config, m: Machine, ch: byte)
    requires MachineInv(cfg, m) && !Stopped(m) && LengthInv(m)
    ensures LengthInv(Step(cfg, m, ch))
  {
    if Step(cfg, m, ch).f.errno.OK? {
      hide Inv, LengthInv, Step;
      if m.f.state.HeaderField? { StepInField(cfg, m, ch); }
      else if m.f.state.HeaderValue? { StepInValue(cfg, m, ch); }
      else if m.f.state.HeaderFieldStart? { StepAtFieldStart(cfg, m, ch); }
      else if m.f.state.Discard? { StepInDiscard(cfg, m, ch); }
      else if m.f.state.HeaderAlmostDone? || m.f.state.HeaderValueLws? { StepBehindValue(cfg, m, ch); }
      else if m.f.state.HeadersAlmostDone? { StepAtHeadEnd(cfg, m, ch); }
      else if InBody(m.f.state) { StepInBody(cfg, m, ch); }
      else if Starting(m.f.state) { StepAtStart(cfg, m, ch); }
      else { StepInFirstLine(cfg, m, ch); }
    } else {
      StepFailsLength(cfg, m, ch);
    }
  }

  lemma StepFailsLength(cfg: Config, m: Machine, ch: byte)
    requires MachineInv(cfg, m) && !Stopped(m) && LengthInv(m) && !Step(cfg, m, ch).f.errno.OK?
    ensures LengthInv(Step(cfg, m, ch))
  {
    hide Inv, Switch, HeadersDeclared, HeadInv, Record;
    CountedKeeps(m.f);
    var f := Counted(m.f);
    if f.nread <= cfg.maxHeader {
      var a := Switch(cfg, f, ch);
      if a.e.empty.Some? { HeadersPush(m.log, Data(a.e.empty.value, [])); }
    }
  }

  lemma {:induction false} RunLength(cfg: Config, m: Machine, data: seq<byte>)
    requires MachineInv(cfg, m) && LengthInv(m)
    ensures LengthInv(Run(cfg, m, data))
    decreases |data|
  {
    hide MachineInv, Step, LengthInv;
    if data != [] && !Stopped(m) {
      StepLength(cfg, m, data[0]);
      RunLength(cfg, Step(cfg, m, data[0]), data[1..]);
    }
  }

  // ---- the declared length and the delivered body ----

  /** The last report of complete headers. */
  predicate LastHeadersAt(log: seq<Event>, j: nat) {
    j < |log| && IsHeadersComplete(log[j]) && forall i | j < i < |log| :: !IsHeadersComplete(log[i])
  }

  lemma {:induction false} FindHeaders(log: seq<Event>) returns (j: nat)
    requires LastHeaders(log).Some?
    ensures LastHeadersAt(log, j) && log[j].view == LastHeaders(log).value
    decreases |log|
  {
    if IsHeadersComplete(log[|log| - 1]) {
      j := |log| - 1;
    } else {
      j := FindHeaders(log[..|log| - 1]);
    }
  }

  /** The headers that were last reported complete declare the length `n`. */
  ghost predicate LengthDeclared(log: seq<Event>, n: nat) {
    exists j: nat :: LastHeadersAt(log, j) && Declared(log[..j], n)
  }

  lemma FreshLength(cfg: Config, t: ParserType)
    ensures LengthInv(Fresh(cfg, t)) && Conserved(Fresh(cfg, t))
  {
  }

  /**
    * In every run from a new parser, each report of complete headers with a length comes after a header of the same
    * message whose name is content-length, in any case, and whose value is the decimal digits of that length with
    * blanks behind them.
    */
  lemma LengthIsDeclared(cfg: Config, t: ParserType, data: seq<byte>)
    ensures HeadersDeclared(Run(cfg, Fresh(cfg, t), data).log)
  {
    hide MachineInv, Run, HeadersDeclared, HeadInv;
    FreshLength(cfg, t);
    RunLength(cfg, Fresh(cfg, t), data);
  }

  /** Body conservation: what is delivered and what remains add up to the digits of that header, after any stream. */
  lemma BodyIsDeclared(cfg: Config, t: ParserType, data: seq<byte>)
    ensures
      var r := Run(cfg, Fresh(cfg, t), data);
      r.f.errno.OK? && r.f.state.BodyIdentity? ==> LengthDeclared(r.log, BodySince(r.log) + r.f.v.contentLength)
  {
    hide MachineInv, Run, DeclaredIn, BodySince, LastHeaders;
    FreshLength(cfg, t);
    var r := Run(cfg, Fresh(cfg, t), data);
    RunConserves(cfg, Fresh(cfg, t), data);
    LengthIsDeclared(cfg, t, data);
    if r.f.errno.OK? && r.f.state.BodyIdentity? {
      var j := FindHeaders(r.log);
      assert Declared(r.log[..j], r.log[j].view.contentLength);
    }
  }

  /** The byte that ends such a body has delivered exactly as many bytes as the digits say. */
  lemma BodyIsComplete(cfg: Config, t: ParserType, data: seq<byte>, ch: byte)
    requires var m := Run(cfg, Fresh(cfg, t), data); m.f.errno.OK? && m.f.state.BodyIdentity? && !m.halted
    ensures
      var r := Step(cfg, Run(cfg, Fresh(cfg, t), data), ch);
      !r.f.state.BodyIdentity? ==> r.f.errno.OK? && LengthDeclared(r.log, BodySince(r.log))
  {
    hide MachineInv, Run, Step, DeclaredIn, BodySince, LastHeaders, HeadInv;
    var m := Run(cfg, Fresh(cfg, t), data);
    FreshLength(cfg, t);
    RunConserves(cfg, Fresh(cfg, t), data);
    RunLength(cfg, Fresh(cfg, t), data);
    StepConserves(cfg, m, ch);
    StepLength(cfg, m, ch);
    var r := Step(cfg, m, ch);
    if !r.f.state.BodyIdentity? {
      var j := FindHeaders(r.log);
      assert Declared(r.log[..j], r.log[j].view.contentLength);
    }
  }
}
