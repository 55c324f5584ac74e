/** What an embedder relies on: results do not depend on how the stream is cut. */
module HttpTheorems {
  import opened Bytes
  import opened HttpTypes
  import opened HttpArms
  import opened HttpMachine
  import opened HttpBulk
  import opened HttpParser

  predicate Cut(pieces: seq<seq<byte>>) { forall i | 0 <= i < |pieces| :: pieces[i] != [] }

  lemma {:induction false} ConcatSnoc(pieces: seq<seq<byte>>, piece: seq<byte>)
    ensures Concat(pieces + [piece]) == Concat(pieces) + piece
    decreases |pieces|
  {
    if pieces == [] {
      assert [piece][1..] == [];
      assert pieces + [piece] == [piece];
    } else {
      ConcatSnoc(pieces[1..], piece);
      assert (pieces + [piece])[1..] == pieces[1..] + [piece];
      assert (pieces + [piece])[0] == pieces[0];
    }
  }

  /** Call the parser once per piece. */
  method Feed(parser: Parser, pieces: seq<seq<byte>>)
    requires parser.Valid() && parser.f.errno.OK? && Cut(pieces)
    requires forall i | 0 <= i < |pieces| :: parser.cfg.maxHeader + |pieces[i]| < TWO_32
    modifies parser`f, parser`log
    ensures parser.Valid()
    ensures var r := Run(parser.cfg, old(parser.Abs()), Concat(pieces));
            !r.halted ==> if r.f.errno.OK? then parser.Abs() == r else !parser.f.errno.OK?
  {
    hide MachineInv, Run, Joined, Step;
    ghost var m := parser.Abs();
    assert Run(parser.cfg, m, []) == m by { RunEmpty(parser.cfg, m); }
    assert pieces[..0] == [];
    for i := 0 to |pieces|
      invariant parser.Valid()
      invariant var r := Run(parser.cfg, m, Concat(pieces[..i]));
                !r.halted ==> if r.f.errno.OK? then parser.Abs() == r else !parser.f.errno.OK?
    {
      ghost var r := Run(parser.cfg, m, Concat(pieces[..i]));
      assert pieces[..i + 1] == pieces[..i] + [pieces[i]];
      ConcatSnoc(pieces[..i], pieces[i]);
      RunConcat(parser.cfg, m, Concat(pieces[..i]), pieces[i]);
      if Stopped(r) { RunStopped(parser.cfg, r, pieces[i]); }
      var _ := parser.Execute(pieces[i]);
    }
    assert pieces[..|pieces|] == pieces;
  }

  lemma RunEmpty(cfg: Config, m: Machine)
    requires MachineInv(cfg, m)
    ensures Run(cfg, m, []) == m
  {
  }

  lemma RunStopped(cfg: Config, m: Machine, data: seq<byte>)
    requires MachineInv(cfg, m) && Stopped(m)
    ensures Run(cfg, m, data) == m
  {
  }

  /** A parser that returned early has announced an upgrade. */
  lemma {:induction false} HaltMeansUpgrade(cfg: Config, m: Machine, data: seq<byte>)
    requires MachineInv(cfg, m) && !m.halted
    ensures Run(cfg, m, data).halted && Run(cfg, m, data).f.errno.OK? ==> Run(cfg, m, data).f.v.upgrade
    decreases |data|
  {
    hide MachineInv, Step;
    if data != [] {
      var init := data[..|data| - 1];
      HaltMeansUpgrade(cfg, m, init);
      RunSnoc(cfg, m, data);
      var r := Run(cfg, m, init);
      if !Stopped(r) { StepHalt(cfg, r, data[|data| - 1]); }
    }
  }

  lemma StepHalt(cfg: Config, m: Machine, ch: byte)
    requires MachineInv(cfg, m) && !Stopped(m)
    ensures Step(cfg, m, ch).halted && Step(cfg, m, ch).f.errno.OK? ==> Step(cfg, m, ch).f.v.upgrade
  {
    hide Inv, Record, Switch;
    CountedKeeps(m.f);
  }

  /**
    * Split independence: unless the one call returns early, which it does only for an upgrade, a stream handed over in
    * one call and the same stream in any pieces both fail, or leave the same record and the same joined log.
    */
  method SplitIndependence(whole: Parser, cut: Parser, pieces: seq<seq<byte>>)
    requires whole != cut && whole.Valid() && cut.Valid() && whole.f.errno.OK?
    requires cut.cfg == whole.cfg && cut.Abs() == whole.Abs()
    requires pieces != [] && Cut(pieces) && whole.cfg.maxHeader + |Concat(pieces)| < TWO_32
    modifies whole`f, whole`log, cut`f, cut`log
    ensures
      !Run(whole.cfg, old(whole.Abs()), Concat(pieces)).halted ==>
        && (whole.f.errno.OK? <==> cut.f.errno.OK?)
        && (whole.f.errno.OK? ==> cut.f == whole.f && Joined(cut.log) == Joined(whole.log))
    ensures Run(whole.cfg, old(whole.Abs()), Concat(pieces)).halted ==> whole.f.errno.OK? && whole.f.v.upgrade
  {
    hide MachineInv, Run, Joined, Step;
    ghost var m := whole.Abs();
    forall i | 0 <= i < |pieces| ensures |pieces[i]| <= |Concat(pieces)| { PieceFits(pieces, i); }
    PieceFits(pieces, 0);
    HaltMeansUpgrade(whole.cfg, m, Concat(pieces));
    FailureDoesNotHalt(whole.cfg, m, Concat(pieces));
    var _ := whole.Execute(Concat(pieces));
    Feed(cut, pieces);
  }

  lemma {:induction false} PieceFits(pieces: seq<seq<byte>>, i: nat)
    requires i < |pieces|
    ensures |pieces[i]| <= |Concat(pieces)|
  {
    if i > 0 { PieceFits(pieces[1..], i - 1); }
  }

  lemma {:induction false} FailureDoesNotHalt(cfg: Config, m: Machine, data: seq<byte>)
    requires MachineInv(cfg, m) && !m.halted
    ensures !Run(cfg, m, data).f.errno.OK? ==> !Run(cfg, m, data).halted
    decreases |data|
  {
    hide MachineInv, Step;
    if data != [] && !Stopped(m) {
      StepFails(cfg, m, data[0]);
      if !Step(cfg, m, data[0]).halted {
        FailureDoesNotHalt(cfg, Step(cfg, m, data[0]), data[1..]);
      }
    }
  }

  lemma StepFails(cfg: Config, m: Machine, ch: byte)
    requires MachineInv(cfg, m) && m.f.errno.OK?
    ensures !Step(cfg, m, ch).f.errno.OK? ==> !Step(cfg, m, ch).halted
  {
    hide Inv, Record, Fits, NotesOk, Switch;
    CountedKeeps(m.f);
    if Counted(m.f).nread <= cfg.maxHeader { SwitchFails(cfg, Counted(m.f), ch); }
  }

  lemma SwitchFails(cfg: Config, f: Fields, ch: byte)
    requires Inv(f) && f.errno.OK? && (f.state.ChunkSizeStart? ==> f.nread == 1)
    ensures !Switch(cfg, f, ch).f.errno.OK? ==> !Switch(cfg, f, ch).halt
  {
    hide Inv, Good, OnHeaders, OnStartLine, OnChunkLine, OnChunkContent, OnIdentity;
    if InHeaders(f.state) { HeadersFail(cfg, f, ch); }
    else if InBody(f.state) { BodyFails(f, ch); }
    else { StartLineFails(f, ch); }
  }

  lemma HeadersFail(cfg: Config, f: Fields, ch: byte)
    requires InHeaders(f.state) && Inv(f) && f.errno.OK?
    ensures var a := OnHeaders(cfg, f, ch); !a.f.errno.OK? ==> !a.halt
  {
    hide Inv, Fits, NotesOk;
  }

  lemma BodyFails(f: Fields, ch: byte)
    requires InBody(f.state) && Inv(f) && f.errno.OK? && (f.state.ChunkSizeStart? ==> f.nread == 1)
    ensures
      var a := if InChunkLine(f.state) then OnChunkLine(f, ch)
               else if InChunk(f.state) then OnChunkContent(f, ch) else OnIdentity(f, ch);
      !a.f.errno.OK? ==> !a.halt
  {
    hide Inv, Fits, NotesOk;
  }

  lemma StartLineFails(f: Fields, ch: byte)
    requires !InHeaders(f.state) && !InBody(f.state) && Inv(f) && f.errno.OK?
    ensures var a := OnStartLine(f, ch); !a.f.errno.OK? ==> !a.halt
  {
    hide Inv, Fits, NotesOk;
  }

  /** A request is never read until the connection closes. */
  lemma RequestHasLength(cfg: Config, data: seq<byte>)
    ensures var r := Run(cfg, Fresh(cfg, Request), data); r.f.errno.OK? ==> !r.f.state.BodyIdentityEof?
  {
    hide Step;
    RunType(cfg, Fresh(cfg, Request), data);
  }
}
